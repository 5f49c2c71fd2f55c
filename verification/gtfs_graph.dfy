/**
 * The GTFS import graph. GTFS stops are merged into stations, and stations,
 * routes and agencies are matched with Transitland stops, routes and
 * operators. The matched entities are then written into a new changeset as
 * change payloads, and the changeset is applied.
 *
 * The GTFS reader's output is an input value (GtfsSource). The database
 * lookups and the from_gtfs constructors are parameters (Lookups).
 * Transitland objects live in three handle heaps, one per kind. A record
 * found in the database is a new object and so gets a new handle, as with
 * ActiveRecord. The `@gtfs_tl` and `@tl_by_onestop_id` hashes map GTFS
 * entities and Onestop IDs to handles. A Ruby Set compares ActiveRecord
 * objects by their row id, so two handles read from the same row are one
 * element of every set the import builds (see Identity).
 */
module GtfsGraphs {
  import opened Wrappers
  import opened Seqs
  import opened Issues
  import opened Payloads
  import opened Changesets

  const CHANGE_PAYLOAD_MAX_ENTITIES: nat := 1000

  // ---------------------------------------------------------------------------
  // GTFS input

  datatype GtfsStop = GtfsStop(id: string, name: string, parentStation: Option<string>)
  /** A trip and the stops it visits (the reader's children(trip)). */
  datatype GtfsTrip = GtfsTrip(id: string, stops: seq<GtfsStop>)
  /** A route and its trips (the reader's children(route)). */
  datatype GtfsRoute = GtfsRoute(id: string, agencyId: string, trips: seq<GtfsTrip>)
  datatype GtfsAgency = GtfsAgency(id: string, name: string)
  datatype GtfsSource = GtfsSource(stops: seq<GtfsStop>, routes: seq<GtfsRoute>, agencies: seq<GtfsAgency>)

  datatype StopTime = StopTime(stopId: string, arrivalTime: string, departureTime: string)
  /** What trip_stop_times yields: a trip with its stop times, in order. */
  datatype TripStopTimes = TripStopTimes(trip: GtfsTrip, stopTimes: seq<StopTime>)

  datatype OperatorInFeed = OperatorInFeed(gtfsAgencyId: string, operatorOnestopId: string)
  datatype FeedRecord = FeedRecord(onestopId: string, operatorsInFeed: seq<OperatorInFeed>)

  /** GTFS::Source#stop: the stop with this id, if any. */
  function StopById(stops: seq<GtfsStop>, id: string): (r: Option<GtfsStop>)
    ensures r.Some? ==> r.value in stops && r.value.id == id
    ensures r.None? ==> forall s :: s in stops ==> s.id != id
  {
    if stops == [] then None
    else if stops[0].id == id then Some(stops[0])
    else StopById(stops[1..], id)
  }

  /** GTFS::Source#agency: the agency with this id, if any. */
  function AgencyById(agencies: seq<GtfsAgency>, id: string): (r: Option<GtfsAgency>)
    ensures r.Some? ==> r.value in agencies && r.value.id == id
    ensures r.None? ==> forall a :: a in agencies ==> a.id != id
  {
    if agencies == [] then None
    else if agencies[0].id == id then Some(agencies[0])
    else AgencyById(agencies[1..], id)
  }

  /** The routes of an agency (the reader's children(agency)). */
  function RoutesOfAgency(src: GtfsSource, agency: GtfsAgency): (r: seq<GtfsRoute>)
    ensures forall g :: g in r <==> g in src.routes && g.agencyId == agency.id
  {
    Filter(src.routes, (g: GtfsRoute) => g.agencyId == agency.id)
  }

  /** The GTFS stops a route's trips visit, trip by trip. */
  function RouteGtfsStops(g: GtfsRoute): seq<GtfsStop> {
    Flatten(seq(|g.trips|, k requires 0 <= k < |g.trips| => g.trips[k].stops))
  }

  /** The reader only links trips to stops of the feed. */
  ghost predicate WellFormed(src: GtfsSource) {
    forall g, s :: g in src.routes && s in RouteGtfsStops(g) ==> s in src.stops
  }

  // ---------------------------------------------------------------------------
  // Station grouping

  /** The group key of a stop: its parent station if that resolves, else the stop itself. */
  function StationOf(src: GtfsSource, s: GtfsStop): (r: GtfsStop)
    ensures r == s || s.parentStation == Some(r.id)
    ensures s.parentStation.None? ==> r == s
  {
    if s.parentStation.None? then s
    else StopById(src.stops, s.parentStation.value).GetOr(s)
  }

  /** The station of a stop is a stop of the feed: either the stop itself or its resolved parent. */
  lemma StationInFeed(src: GtfsSource, s: GtfsStop)
    requires s in src.stops
    ensures StationOf(src, s) in src.stops
    ensures StationOf(src, s) == s || (s.parentStation.Some? && StopById(src.stops, s.parentStation.value) == Some(StationOf(src, s)))
  {
  }

  /** The stops of `stops` whose group key is `key`, in order. */
  function StationMembers(src: GtfsSource, stops: seq<GtfsStop>, key: GtfsStop): seq<GtfsStop> {
    if stops == [] then []
    else
      var last := stops[|stops| - 1];
      StationMembers(src, stops[..|stops| - 1], key) + (if StationOf(src, last) == key then [last] else [])
  }

  /** A stop is in a group exactly when it is one of the stops and the group is its station's. */
  lemma {:induction false} StationMembersContains(src: GtfsSource, stops: seq<GtfsStop>, key: GtfsStop, s: GtfsStop)
    ensures s in StationMembers(src, stops, key) <==> s in stops && StationOf(src, s) == key
  {
    if stops != [] {
      var init := stops[..|stops| - 1];
      StationMembersContains(src, init, key, s);
      assert stops == init + [stops[|stops| - 1]];
    }
  }

  /**
   * No station has a parent station that resolves, so grouping is one level
   * deep (GTFS does not let a station have a parent station).
   */
  ghost predicate TwoLevel(src: GtfsSource) {
    forall s :: s in src.stops ==> StationOf(src, StationOf(src, s)) == StationOf(src, s)
  }

  lemma StationMembersAppend(src: GtfsSource, a: seq<GtfsStop>, s: GtfsStop, key: GtfsStop)
    ensures StationMembers(src, a + [s], key)
            == StationMembers(src, a, key) + (if StationOf(src, s) == key then [s] else [])
  {
    assert (a + [s])[..|a|] == a;
  }

  /** The `stations` hash after the stops of `prefix` were added. */
  ghost predicate GroupedUpTo(src: GtfsSource, prefix: seq<GtfsStop>, keys: seq<GtfsStop>, members: map<GtfsStop, seq<GtfsStop>>) {
    && NoDuplicates(keys)
    && (forall k :: k in members <==> k in keys)
    && KeysCover(src, prefix, keys)
    && MembersFiltered(src, prefix, keys, members)
    && KeysUsed(src, prefix, keys)
  }

  ghost predicate KeysCover(src: GtfsSource, prefix: seq<GtfsStop>, keys: seq<GtfsStop>) {
    forall s :: s in prefix ==> StationOf(src, s) in keys
  }

  ghost predicate MembersFiltered(src: GtfsSource, prefix: seq<GtfsStop>, keys: seq<GtfsStop>, members: map<GtfsStop, seq<GtfsStop>>) {
    forall k :: k in keys ==> k in members && members[k] == StationMembers(src, prefix, k)
  }

  ghost predicate KeysUsed(src: GtfsSource, prefix: seq<GtfsStop>, keys: seq<GtfsStop>) {
    forall k :: k in keys ==> exists s :: s in prefix && StationOf(src, s) == k
  }

  lemma NewKeyHasNoMembers(src: GtfsSource, prefix: seq<GtfsStop>, keys: seq<GtfsStop>, st: GtfsStop)
    requires KeysCover(src, prefix, keys) && st !in keys
    ensures StationMembers(src, prefix, st) == []
  {
    var none := StationMembers(src, prefix, st);
    if none != [] {
      StationMembersContains(src, prefix, st, none[0]);
    }
  }

  /** The new keys and groups after `stations[station] << stop`. */
  ghost predicate Added(src: GtfsSource, stop: GtfsStop,
                        keys: seq<GtfsStop>, members: map<GtfsStop, seq<GtfsStop>>,
                        keys': seq<GtfsStop>, members': map<GtfsStop, seq<GtfsStop>>) {
    var st := StationOf(src, stop);
    && keys' == (if st in members then keys else keys + [st])
    && members' == members[st := (if st in members then members[st] else []) + [stop]]
  }

  lemma StepFiltered(src: GtfsSource, prefix: seq<GtfsStop>, stop: GtfsStop,
                     keys: seq<GtfsStop>, members: map<GtfsStop, seq<GtfsStop>>,
                     keys': seq<GtfsStop>, members': map<GtfsStop, seq<GtfsStop>>)
    requires KeysCover(src, prefix, keys) && MembersFiltered(src, prefix, keys, members)
    requires forall k :: k in members <==> k in keys
    requires Added(src, stop, keys, members, keys', members')
    ensures MembersFiltered(src, prefix + [stop], keys', members')
  {
    var st := StationOf(src, stop);
    if st !in members {
      NewKeyHasNoMembers(src, prefix, keys, st);
    }
    forall k | k in keys'
      ensures k in members' && members'[k] == StationMembers(src, prefix + [stop], k)
    {
      StationMembersAppend(src, prefix, stop, k);
    }
  }

  lemma StepCover(src: GtfsSource, prefix: seq<GtfsStop>, stop: GtfsStop,
                  keys: seq<GtfsStop>, members: map<GtfsStop, seq<GtfsStop>>,
                  keys': seq<GtfsStop>, members': map<GtfsStop, seq<GtfsStop>>)
    requires KeysCover(src, prefix, keys)
    requires forall k :: k in members <==> k in keys
    requires Added(src, stop, keys, members, keys', members')
    ensures KeysCover(src, prefix + [stop], keys')
  {
    forall s | s in prefix + [stop]
      ensures StationOf(src, s) in keys'
    {
      if s != stop {
        assert s in prefix;
      }
    }
  }

  lemma StepUsed(src: GtfsSource, prefix: seq<GtfsStop>, stop: GtfsStop,
                 keys: seq<GtfsStop>, members: map<GtfsStop, seq<GtfsStop>>,
                 keys': seq<GtfsStop>, members': map<GtfsStop, seq<GtfsStop>>)
    requires KeysUsed(src, prefix, keys)
    requires Added(src, stop, keys, members, keys', members')
    ensures KeysUsed(src, prefix + [stop], keys')
  {
    forall k | k in keys'
      ensures exists s :: s in prefix + [stop] && StationOf(src, s) == k
    {
      if k == StationOf(src, stop) {
        assert stop in prefix + [stop];
      } else {
        assert k in keys;
        var s :| s in prefix && StationOf(src, s) == k;
        assert s in prefix + [stop];
      }
    }
  }

  lemma StepKeys(src: GtfsSource, stop: GtfsStop,
                 keys: seq<GtfsStop>, members: map<GtfsStop, seq<GtfsStop>>,
                 keys': seq<GtfsStop>, members': map<GtfsStop, seq<GtfsStop>>)
    requires NoDuplicates(keys) && forall k :: k in members <==> k in keys
    requires Added(src, stop, keys, members, keys', members')
    ensures NoDuplicates(keys') && forall k :: k in members' <==> k in keys'
  {
  }

  /** Adding one stop to the group of its station keeps the hash in step with the stops seen. */
  lemma GroupStep(src: GtfsSource, prefix: seq<GtfsStop>, stop: GtfsStop,
                  keys: seq<GtfsStop>, members: map<GtfsStop, seq<GtfsStop>>,
                  keys': seq<GtfsStop>, members': map<GtfsStop, seq<GtfsStop>>)
    requires GroupedUpTo(src, prefix, keys, members)
    requires Added(src, stop, keys, members, keys', members')
    ensures GroupedUpTo(src, prefix + [stop], keys', members')
  {
    StepKeys(src, stop, keys, members, keys', members');
    StepFiltered(src, prefix, stop, keys, members, keys', members');
    StepCover(src, prefix, stop, keys, members, keys', members');
    StepUsed(src, prefix, stop, keys, members, keys', members');
  }

  /** The `stations` hash of load_tl_stops, filled stop by stop. */
  method GroupStations(src: GtfsSource) returns (keys: seq<GtfsStop>, members: map<GtfsStop, seq<GtfsStop>>)
    ensures GroupedUpTo(src, src.stops, keys, members)
  {
    keys, members := [], map[];
    var i := 0;
    while i < |src.stops|
      invariant 0 <= i <= |src.stops|
      invariant GroupedUpTo(src, src.stops[..i], keys, members)
    {
      keys, members := AddToGroup(src, src.stops[..i], src.stops[i], keys, members);
      TakeOneMore(src.stops, i);
      i := i + 1;
    }
    assert src.stops[..i] == src.stops;
  }

  /** One stop of the grouping loop: its station gets a group if it has none, and the stop joins it. */
  method AddToGroup(src: GtfsSource, ghost prefix: seq<GtfsStop>, stop: GtfsStop,
                    keys: seq<GtfsStop>, members: map<GtfsStop, seq<GtfsStop>>)
    returns (keys': seq<GtfsStop>, members': map<GtfsStop, seq<GtfsStop>>)
    requires GroupedUpTo(src, prefix, keys, members)
    ensures GroupedUpTo(src, prefix + [stop], keys', members')
  {
    var station := StationOf(src, stop);
    keys', members' := keys, members;
    if station !in members' {
      keys' := keys' + [station];
      members' := members'[station := []];
    }
    members' := members'[station := members'[station] + [stop]];
    assert Added(src, stop, keys, members, keys', members');
    GroupStep(src, prefix, stop, keys, members, keys', members');
  }

  /** Every stop of the feed is in exactly one group, the group of its station. */
  lemma GroupingPartitions(src: GtfsSource, keys: seq<GtfsStop>, members: map<GtfsStop, seq<GtfsStop>>, s: GtfsStop, k: GtfsStop)
    requires GroupedUpTo(src, src.stops, keys, members)
    requires s in src.stops && k in keys
    ensures StationOf(src, s) in keys
    ensures s in members[k] <==> StationOf(src, s) == k
  {
    StationMembersContains(src, src.stops, k, s);
  }

  /**
   * What load_tl_stops has done once the stations in `done` are loaded: each
   * of their stops is mapped and, with one level of stations, maps to the
   * same handle as its station.
   */
  ghost predicate StationsMapped(src: GtfsSource, done: seq<GtfsStop>, m: map<GtfsStop, nat>) {
    && (forall s :: s in src.stops && StationOf(src, s) in done ==> s in m)
    && (TwoLevel(src) ==>
          forall s :: s in src.stops && StationOf(src, s) in done ==>
            StationOf(src, s) in m && m[s] == m[StationOf(src, s)])
  }

  /** Loading one more station maps its group and leaves the other groups' handles alone. */
  lemma StationsMappedStep(src: GtfsSource, keys: seq<GtfsStop>, members: map<GtfsStop, seq<GtfsStop>>,
                           i: nat, m: map<GtfsStop, nat>, h: nat)
    requires GroupedUpTo(src, src.stops, keys, members)
    requires i < |keys| && StationsMapped(src, keys[..i], m)
    ensures keys[i] in members
    ensures StationsMapped(src, keys[..i + 1], m + (map e | e in [keys[i]] + members[keys[i]] :: h))
  {
    var key := keys[i];
    assert key in keys;
    var group := [key] + members[key];
    var m' := m + (map e | e in group :: h);
    TakeOneMore(keys, i);
    forall s | s in src.stops && StationOf(src, s) in keys[..i + 1]
      ensures s in m'
    {
      if StationOf(src, s) == key {
        GroupingPartitions(src, keys, members, s, key);
      } else {
        assert StationOf(src, s) in keys[..i];
      }
    }
    if TwoLevel(src) {
      forall s | s in src.stops && StationOf(src, s) in keys[..i + 1]
        ensures StationOf(src, s) in m' && m'[s] == m'[StationOf(src, s)]
      {
        var st := StationOf(src, s);
        StationInFeed(src, s);
        assert StationOf(src, st) == st;
        if st == key {
          GroupingPartitions(src, keys, members, s, key);
          assert s in group && st in group;
        } else {
          assert st in keys[..i];
          var w :| w in src.stops && StationOf(src, w) == key;
          assert StationOf(src, key) == key;
          GroupingPartitions(src, keys, members, s, key);
          GroupingPartitions(src, keys, members, st, key);
          assert s !in group && st !in group;
        }
      }
    }
  }

  /** Once every station is loaded, every stop is mapped, to its station's handle when stations are one level deep. */
  lemma StationsMappedAll(src: GtfsSource, keys: seq<GtfsStop>, members: map<GtfsStop, seq<GtfsStop>>, m: map<GtfsStop, nat>)
    requires GroupedUpTo(src, src.stops, keys, members) && StationsMapped(src, keys, m)
    ensures forall s :: s in src.stops ==> s in m
    ensures TwoLevel(src) ==> forall s :: s in src.stops ==> StationOf(src, s) in m && m[s] == m[StationOf(src, s)]
  {
    assert KeysCover(src, src.stops, keys);
  }

  // ---------------------------------------------------------------------------
  // Transitland records

  /**
   * A Transitland stop, route or operator record as the import uses it.
   * `dbId` is the id of the stored row it was read from, None while unsaved.
   */
  datatype TlRecord = TlRecord(dbId: Option<nat>, onestopId: string, name: string, identifiedBy: seq<Identifier>,
                               tags: Option<map<string, string>>, timezone: Option<string>,
                               website: Option<string>)

  /** A route object: its record, the stop handles it serves and its operator's handle. */
  datatype TlRoute = TlRoute(rec: TlRecord, serves: seq<nat>, operator: Option<nat>)

  /** An operator object: its record and the route handles it serves. */
  datatype TlOperator = TlOperator(rec: TlRecord, serves: seq<nat>)

  /**
   * The constructors from GTFS, the similarity search and find_by(onestop_id:).
   * A query answers with the id of the row it found and the row's attributes.
   */
  datatype Lookups = Lookups(
    stopFromGtfs: GtfsStop -> TlRecord,
    similarStop: TlRecord -> Option<(nat, TlRecord)>,
    storedStop: string -> Option<(nat, TlRecord)>,
    routeFromGtfs: (GtfsRoute, seq<TlRecord>) -> TlRecord,
    storedRoute: string -> Option<(nat, TlRecord)>,
    operatorFromGtfs: GtfsAgency -> TlRecord,
    storedOperator: string -> Option<(nat, TlRecord)>)

  /** A record read from the database carries the id of its row. */
  function Loaded(row: Option<(nat, TlRecord)>): (r: Option<TlRecord>)
    ensures r.Some? <==> row.Some?
    ensures r.Some? ==> r.value.dbId == Some(row.value.0)
  {
    match row
    case None => None
    case Some((id, rec)) => Some(rec.(dbId := Some(id)))
  }

  /** A record built by from_gtfs is not saved, so it has no id. */
  function Built(rec: TlRecord): (r: TlRecord)
    ensures r.dbId.None?
  {
    rec.(dbId := None)
  }

  /**
   * What a Ruby Set compares ActiveRecord objects by (their == and hash): a
   * stored record by its row id, an unsaved one by the object itself.
   */
  datatype Identity = Row(id: nat) | Object(handle: nat)

  /** The identity of the object at handle h of a heap whose stored ids are `ids`. */
  function IdentityIn(ids: seq<Option<nat>>, h: nat): Identity {
    if h < |ids| && ids[h].Some? then Row(ids[h].value) else Object(h)
  }

  /** The identity of every handle of a heap whose stored ids are `ids`. */
  function KeyIn(ids: seq<Option<nat>>): nat -> Identity {
    (h: nat) => IdentityIn(ids, h)
  }

  /** The stored ids of the objects of a heap, by handle. */
  function Ids<T>(heap: seq<T>, rec: T -> TlRecord): (r: seq<Option<nat>>)
    ensures |r| == |heap|
    ensures forall j :: 0 <= j < |heap| ==> r[j] == rec(heap[j]).dbId
  {
    seq(|heap|, j requires 0 <= j < |heap| => rec(heap[j]).dbId)
  }

  function StopRec(s: TlRecord): TlRecord { s }
  function RouteRec(r: TlRoute): TlRecord { r.rec }
  function OperatorRec(o: TlOperator): TlRecord { o.rec }

  /** Two handles read from the same row are one element: the set keeps the first. */
  lemma SameRowCountsOnce(ids: seq<Option<nat>>, h1: nat, h2: nat)
    requires h1 < |ids| && h2 < |ids| && h1 != h2
    requires ids[h1].Some? && ids[h1] == ids[h2]
    ensures DedupBy([h1, h2], KeyIn(ids)) == [h1]
    ensures UnionBy([h1], [h2], KeyIn(ids)) == [h1]
  {
    assert [h1, h2][..1] == [h1];
    assert h1 in [h1] && KeyIn(ids)(h1) == KeyIn(ids)(h2);
    assert DedupBy([h1], KeyIn(ids)) == [h1] by {
      assert [h1][..0] == [];
    }
    assert [h1] + [h2] == [h1, h2];
  }

  /**
   * Where no two handles come from the same row, the sets of the import are
   * sets of handles.
   */
  lemma DistinctRowsCountByHandle(ids: seq<Option<nat>>, hs: seq<nat>)
    requires forall i, j :: 0 <= i < |hs| && 0 <= j < |hs| && hs[i] != hs[j] && hs[i] < |ids| && hs[j] < |ids| ==>
               ids[hs[i]].None? || ids[hs[i]] != ids[hs[j]]
    ensures DedupBy(hs, KeyIn(ids)) == Dedup(hs)
  {
    forall x, y | x in hs && y in hs && KeyIn(ids)(x) == KeyIn(ids)(y)
      ensures x == y
    {
      var i :| 0 <= i < |hs| && hs[i] == x;
      var j :| 0 <= j < |hs| && hs[j] == y;
    }
    DedupByInjective(hs, KeyIn(ids));
  }

  /**
   * Writing an object with the same stored id, or allocating a new one,
   * keeps the stored id of every handle.
   */
  lemma PutKeepsIds<T>(heap: seq<T>, h: nat, x: T, rec: T -> TlRecord)
    requires h <= |heap|
    requires h < |heap| ==> rec(x).dbId == rec(heap[h]).dbId
    ensures Ids(heap, rec) <= Ids(Put(heap, h, x), rec)
  {
  }

  /**
   * Handles below the old heap size keep their identities when stored ids
   * are kept, so found handles stay distinct.
   */
  lemma FoundKept(before: seq<Option<nat>>, after: seq<Option<nat>>, found: seq<nat>)
    requires before <= after && forall h :: h in found ==> h < |before|
    ensures KeysDistinct(found, KeyIn(before)) ==> KeysDistinct(found, KeyIn(after))
  {
    IdentityKept(before, after);
    forall i, j | 0 <= i < j < |found|
      ensures KeyIn(after)(found[i]) == KeyIn(before)(found[i]) && KeyIn(after)(found[j]) == KeyIn(before)(found[j])
    {
      assert found[i] in found && found[j] in found;
    }
  }

  /** A handle whose identity a found handle had still has one among the found handles. */
  lemma FoundKeyKept(before: seq<Option<nat>>, after: seq<Option<nat>>, found: seq<nat>, found': seq<nat>, x: nat)
    requires before <= after && forall h :: h in found ==> h < |before|
    requires x < |before| && forall h :: h in found ==> h in found'
    requires HasKey(found, KeyIn(before), KeyIn(before)(x))
    ensures HasKey(found', KeyIn(after), KeyIn(after)(x))
  {
    IdentityKept(before, after);
    var y :| y in found && KeyIn(before)(y) == KeyIn(before)(x);
    assert y in found' && KeyIn(after)(y) == KeyIn(after)(x);
  }

  /** Every operator in feed whose agency the GTFS feed has maps to an operator with a found identity. */
  ghost predicate AgenciesFound(gtfs: GtfsSource, oifs: seq<OperatorInFeed>, operatorOf: map<GtfsAgency, nat>,
                                found: seq<nat>, key: nat -> Identity) {
    forall k :: 0 <= k < |oifs| && AgencyById(gtfs.agencies, oifs[k].gtfsAgencyId).Some? ==>
      var agency := AgencyById(gtfs.agencies, oifs[k].gtfsAgencyId).value;
      agency in operatorOf && HasKey(found, key, key(operatorOf[agency]))
  }

  /**
   * One more operator in feed: the agencies seen before stay mapped to a
   * found identity, and the new one is mapped to one.
   */
  lemma AgenciesFoundStep(gtfs: GtfsSource, oifs: seq<OperatorInFeed>, oif: OperatorInFeed,
                          of0: map<GtfsAgency, nat>, of1: map<GtfsAgency, nat>,
                          found0: seq<nat>, found1: seq<nat>, key0: nat -> Identity, key1: nat -> Identity)
    requires AgenciesFound(gtfs, oifs, of0, found0, key0)
    requires forall a :: a in of0 && HasKey(found0, key0, key0(of0[a])) ==> a in of1 && HasKey(found1, key1, key1(of1[a]))
    requires AgencyById(gtfs.agencies, oif.gtfsAgencyId).Some? ==>
               var agency := AgencyById(gtfs.agencies, oif.gtfsAgencyId).value;
               agency in of1 && HasKey(found1, key1, key1(of1[agency]))
    ensures AgenciesFound(gtfs, oifs + [oif], of1, found1, key1)
  {
    forall k | 0 <= k < |oifs| + 1 && AgencyById(gtfs.agencies, (oifs + [oif])[k].gtfsAgencyId).Some?
      ensures var agency := AgencyById(gtfs.agencies, (oifs + [oif])[k].gtfsAgencyId).value;
              agency in of1 && HasKey(found1, key1, key1(of1[agency]))
    {
      if k < |oifs| {
        assert (oifs + [oif])[k] == oifs[k];
      }
    }
  }

  /** A handle whose stored id is kept keeps its identity. */
  lemma IdentityKept(before: seq<Option<nat>>, after: seq<Option<nat>>)
    requires before <= after
    ensures forall h: nat :: h < |before| ==> KeyIn(after)(h) == KeyIn(before)(h)
  {
  }

  /** add_identifier for each entity of a group, in order. */
  function WithIdentifiers(rec: TlRecord, feedOnestopId: string, group: seq<GtfsStop>): (r: TlRecord)
    ensures r.dbId == rec.dbId && r.onestopId == rec.onestopId && r.timezone == rec.timezone
  {
    rec.(identifiedBy := rec.identifiedBy
                         + seq(|group|, k requires 0 <= k < |group| => Identifier(feedOnestopId, group[k].id)))
  }

  function WithIdentifier(rec: TlRecord, feedOnestopId: string, entityId: string): (r: TlRecord)
    ensures r.dbId == rec.dbId && r.onestopId == rec.onestopId && r.timezone == rec.timezone
  {
    rec.(identifiedBy := rec.identifiedBy + [Identifier(feedOnestopId, entityId)])
  }

  /**
   * `Model.find_by(onestop_id:) || @tl_by_onestop_id[onestop_id] || candidate`:
   * the handle of the chosen object and the object itself. A stored record is
   * a new object; a cached one is the object already in the heap.
   */
  function Choose<T>(stored: Option<T>, cache: map<string, nat>, heap: seq<T>, key: string, candidate: T): (r: (nat, T))
    requires forall k :: k in cache ==> cache[k] < |heap|
    ensures r.0 <= |heap|
    ensures r.0 < |heap| ==> r.1 == heap[r.0]
  {
    match stored
    case Some(x) => (|heap|, x)
    case None => if key in cache then (cache[key], heap[cache[key]]) else (|heap|, candidate)
  }

  /** Writes an object at a handle; the handle one past the end allocates. */
  function Put<T>(heap: seq<T>, h: nat, x: T): (r: seq<T>)
    requires h <= |heap|
    ensures |r| == if h == |heap| then |heap| + 1 else |heap|
    ensures r[h] == x
    ensures forall j :: 0 <= j < |heap| && j != h ==> r[j] == heap[j]
  {
    if h == |heap| then heap + [x] else heap[h := x]
  }

  /** `stop.timezone ||= tz` for every stop handle in `served`. */
  function FillTimezones(heap: seq<TlRecord>, served: seq<nat>, tz: Option<string>): (r: seq<TlRecord>)
    ensures |r| == |heap|
  {
    seq(|heap|, j requires 0 <= j < |heap| =>
      if j in served && heap[j].timezone.None? then heap[j].(timezone := tz) else heap[j])
  }

  /**
   * Only a served stop without a timezone changes, and only its timezone;
   * a stop that has a timezone keeps it.
   */
  lemma FillTimezonesAt(heap: seq<TlRecord>, served: seq<nat>, tz: Option<string>, j: nat)
    requires j < |heap|
    ensures heap[j].timezone.Some? || j !in served ==> FillTimezones(heap, served, tz)[j] == heap[j]
    ensures heap[j].timezone.None? && j in served ==> FillTimezones(heap, served, tz)[j] == heap[j].(timezone := tz)
  {
  }

  /** `route.operator = operator` for every route handle in `served`. */
  function SetOperator(heap: seq<TlRoute>, served: seq<nat>, operator: nat): (r: seq<TlRoute>)
    ensures |r| == |heap|
  {
    seq(|heap|, j requires 0 <= j < |heap| => if j in served then heap[j].(operator := Some(operator)) else heap[j])
  }

  /** One more stop of the list: its timezone is filled if it is still missing. */
  lemma FillTimezonesStep(heap: seq<TlRecord>, served: seq<nat>, k: nat, tz: Option<string>)
    requires k < |served| && served[k] < |heap|
    ensures var r := FillTimezones(heap, served[..k], tz);
            var s := served[k];
            FillTimezones(heap, served[..k + 1], tz) == if r[s].timezone.None? then r[s := r[s].(timezone := tz)] else r
  {
    TakeOneMore(served, k);
  }

  /** `stops.each { |stop| stop.timezone ||= tz }`. */
  method FillStopTimezones(heap: seq<TlRecord>, served: seq<nat>, tz: Option<string>) returns (r: seq<TlRecord>)
    requires forall k :: 0 <= k < |served| ==> served[k] < |heap|
    ensures r == FillTimezones(heap, served, tz)
  {
    r := heap;
    var k := 0;
    while k < |served|
      invariant 0 <= k <= |served|
      invariant r == FillTimezones(heap, served[..k], tz)
    {
      FillTimezonesStep(heap, served, k, tz);
      var s := served[k];
      if r[s].timezone.None? {
        r := r[s := r[s].(timezone := tz)];
      }
      k := k + 1;
    }
    assert served[..k] == served;
  }

  lemma SetOperatorStep(heap: seq<TlRoute>, rs: seq<nat>, k: nat, operator: nat)
    requires k < |rs| && rs[k] < |heap|
    ensures var r := SetOperator(heap, rs[..k], operator);
            SetOperator(heap, rs[..k + 1], operator) == r[rs[k] := r[rs[k]].(operator := Some(operator))]
  {
    TakeOneMore(rs, k);
  }

  /** `routes.each { |route| route.operator = operator }`. */
  method AssignOperator(heap: seq<TlRoute>, rs: seq<nat>, operator: nat) returns (r: seq<TlRoute>)
    requires forall k :: 0 <= k < |rs| ==> rs[k] < |heap|
    ensures r == SetOperator(heap, rs, operator)
  {
    r := heap;
    var k := 0;
    while k < |rs|
      invariant 0 <= k <= |rs|
      invariant r == SetOperator(heap, rs[..k], operator)
    {
      SetOperatorStep(heap, rs, k, operator);
      r := r[rs[k] := r[rs[k]].(operator := Some(operator))];
      k := k + 1;
    }
    assert rs[..k] == rs;
  }

  /** `keys.map { |k| m[k] }.compact`: the values of the keys present in m, in order. */
  function ValuesPresent<K(==), V(==,!new)>(keys: seq<K>, m: map<K, V>): (r: seq<V>)
    ensures forall v :: v in r <==> exists k :: k in keys && k in m && m[k] == v
  {
    if keys == [] then []
    else (if keys[0] in m then [m[keys[0]]] else []) + ValuesPresent(keys[1..], m)
  }

  /** The records at the given handles, in order. */
  function Records(heap: seq<TlRecord>, hs: seq<nat>): (r: seq<TlRecord>)
    requires forall k :: 0 <= k < |hs| ==> hs[k] < |heap|
    ensures |r| == |hs|
    ensures forall k :: 0 <= k < |hs| ==> r[k] == heap[hs[k]]
  {
    if hs == [] then []
    else
      [heap[hs[0]]] + Records(heap, hs[1..])
  }

  /** The Onestop IDs of the records at the given handles, in order. */
  function OnestopIds(heap: seq<TlRecord>, hs: seq<nat>): (r: seq<string>)
    requires forall k :: 0 <= k < |hs| ==> hs[k] < |heap|
    ensures |r| == |hs|
    ensures forall k :: 0 <= k < |hs| ==> r[k] == heap[hs[k]].onestopId
  {
    if hs == [] then []
    else
      [heap[hs[0]].onestopId] + OnestopIds(heap, hs[1..])
  }

  /**
   * `map(&:serves).reduce(Set.new, :+)` before the set removes repeats: the
   * `serves` lists of the objects at the given handles, one after the other.
   */
  function ServesOf<T>(heap: seq<T>, hs: seq<nat>, serves: T -> seq<nat>): (r: seq<nat>)
    requires forall h :: h in hs ==> h < |heap|
    ensures forall x :: x in r <==> exists j :: j in hs && x in serves(heap[j])
  {
    if hs == [] then []
    else
      assert hs[0] in hs && forall j :: j in hs <==> j == hs[0] || j in hs[1..];
      var rest := ServesOf(heap, hs[1..], serves);
      serves(heap[hs[0]]) + rest
  }

  predicate RouteValid(r: TlRoute, stopCount: nat, operatorCount: nat) {
    (forall s :: s in r.serves ==> s < stopCount)
    && (r.operator.Some? ==> r.operator.value < operatorCount)
  }

  predicate OperatorValid(o: TlOperator, routes: seq<TlRoute>) {
    forall r :: r in o.serves ==> r < |routes| && routes[r].operator.Some?
  }

  /** Every value of a hash is a handle into a heap of n objects. */
  ghost predicate HandlesBelow<K>(m: map<K, nat>, n: nat) {
    forall k :: k in m ==> m[k] < n
  }

  ghost predicate RoutesValid(routes: seq<TlRoute>, stopCount: nat, operatorCount: nat) {
    forall j :: 0 <= j < |routes| ==> RouteValid(routes[j], stopCount, operatorCount)
  }

  ghost predicate OperatorsValid(operators: seq<TlOperator>, routes: seq<TlRoute>) {
    forall j :: 0 <= j < |operators| ==> OperatorValid(operators[j], routes)
  }

  /**
   * Writing a valid route keeps the routes valid, and keeps the operators
   * valid as long as a route that had an operator keeps one.
   */
  lemma PutRouteValid(routes: seq<TlRoute>, operators: seq<TlOperator>, stopCount: nat, h: nat, x: TlRoute)
    requires RoutesValid(routes, stopCount, |operators|) && OperatorsValid(operators, routes)
    requires h <= |routes| && RouteValid(x, stopCount, |operators|)
    requires h < |routes| && routes[h].operator.Some? ==> x.operator.Some?
    ensures RoutesValid(Put(routes, h, x), stopCount, |operators|)
    ensures OperatorsValid(operators, Put(routes, h, x))
  {
    var routes' := Put(routes, h, x);
    forall j | 0 <= j < |operators|
      ensures OperatorValid(operators[j], routes')
    {
      assert OperatorValid(operators[j], routes);
    }
  }

  /** Handles below n stay below n in a union. */
  lemma UnionByBelow(a: seq<nat>, b: seq<nat>, key: nat -> Identity, n: nat)
    requires forall x :: x in a ==> x < n
    requires forall x :: x in b ==> x < n
    ensures forall x :: x in UnionBy<nat, Identity>(a, b, key) ==> x < n
  {
  }

  /** Writing a valid route and mapping a GTFS route and an Onestop ID to it keeps the graph valid. */
  lemma WriteRouteValid(stops: seq<TlRecord>, routes: seq<TlRoute>, operators: seq<TlOperator>,
                        stopOf: map<GtfsStop, nat>, stopByOnestopId: map<string, nat>,
                        routeOf: map<GtfsRoute, nat>, routeByOnestopId: map<string, nat>,
                        operatorOf: map<GtfsAgency, nat>, operatorByOnestopId: map<string, nat>,
                        g: GtfsRoute, onestopId: string, h: nat, x: TlRoute)
    requires GraphValid(stops, routes, operators, stopOf, stopByOnestopId, routeOf, routeByOnestopId, operatorOf, operatorByOnestopId)
    requires h <= |routes| && RouteValid(x, |stops|, |operators|)
    requires h < |routes| && routes[h].operator.Some? ==> x.operator.Some?
    ensures GraphValid(stops, Put(routes, h, x), operators, stopOf, stopByOnestopId,
                       routeOf[g := h], routeByOnestopId[onestopId := h], operatorOf, operatorByOnestopId)
  {
    PutRouteValid(routes, operators, |stops|, h, x);
  }

  /**
   * Making an operator the operator of some routes and adding them to what
   * it serves keeps every route and every operator valid.
   */
  lemma AssignOperatorValid(stopCount: nat, routes: seq<TlRoute>, operators: seq<TlOperator>, rs: seq<nat>,
                            h: nat, rec: TlRecord, prior: seq<nat>, key: nat -> Identity)
    requires RoutesValid(routes, stopCount, |operators|) && OperatorsValid(operators, routes)
    requires h <= |operators| && forall k :: 0 <= k < |rs| ==> rs[k] < |routes|
    requires forall r :: r in prior ==> r < |routes| && routes[r].operator.Some?
    ensures var routes' := SetOperator(routes, rs, h);
            var operators' := Put(operators, h, TlOperator(rec, UnionBy(prior, rs, key)));
            RoutesValid(routes', stopCount, |operators'|) && OperatorsValid(operators', routes')
  {
    var routes' := SetOperator(routes, rs, h);
    var operators' := Put(operators, h, TlOperator(rec, UnionBy(prior, rs, key)));
    forall j | 0 <= j < |routes'|
      ensures RouteValid(routes'[j], stopCount, |operators'|)
    {
      assert RouteValid(routes[j], stopCount, |operators|);
    }
    forall j | 0 <= j < |operators'|
      ensures OperatorValid(operators'[j], routes')
    {
      if j != h {
        assert OperatorValid(operators[j], routes);
      }
    }
  }

  /** Every handle in a hash or an object points into its heap. */
  ghost predicate GraphValid(stops: seq<TlRecord>, routes: seq<TlRoute>, operators: seq<TlOperator>,
                             stopOf: map<GtfsStop, nat>, stopByOnestopId: map<string, nat>,
                             routeOf: map<GtfsRoute, nat>, routeByOnestopId: map<string, nat>,
                             operatorOf: map<GtfsAgency, nat>, operatorByOnestopId: map<string, nat>) {
    && HandlesBelow(stopOf, |stops|) && HandlesBelow(stopByOnestopId, |stops|)
    && HandlesBelow(routeOf, |routes|) && HandlesBelow(routeByOnestopId, |routes|)
    && HandlesBelow(operatorOf, |operators|) && HandlesBelow(operatorByOnestopId, |operators|)
    && RoutesValid(routes, |stops|, |operators|)
    && OperatorsValid(operators, routes)
  }

  // ---------------------------------------------------------------------------
  // Change bodies (make_change_*)

  /** make_change_operator: identifiers without repeats, tags defaulting to {}. */
  function MakeChangeOperator(o: TlRecord, feedOnestopId: string): (b: ChangeBody)
    ensures b.OperatorBody? && b.onestopId == o.onestopId && b.name == o.name
    ensures b.importedFromFeedOnestopId == feedOnestopId
    ensures NoDuplicates(b.identifiedBy) && forall i :: i in b.identifiedBy <==> i in o.identifiedBy
    ensures o.tags.None? ==> b.tags == map[]
    ensures o.tags.Some? ==> b.tags == o.tags.value
    ensures b.timezone == o.timezone && b.website == o.website
  {
    OperatorBody(o.onestopId, o.name, Dedup(o.identifiedBy), feedOnestopId, o.tags.GetOr(map[]), o.timezone, o.website)
  }

  /** make_change_stop: identifiers without repeats, tags defaulting to {}. */
  function MakeChangeStop(s: TlRecord, feedOnestopId: string): (b: ChangeBody)
    ensures b.StopBody? && b.onestopId == s.onestopId && b.name == s.name
    ensures b.importedFromFeedOnestopId == feedOnestopId
    ensures NoDuplicates(b.identifiedBy) && forall i :: i in b.identifiedBy <==> i in s.identifiedBy
    ensures s.tags.None? ==> b.tags == map[]
    ensures s.tags.Some? ==> b.tags == s.tags.value
    ensures b.timezone == s.timezone
  {
    StopBody(s.onestopId, s.name, Dedup(s.identifiedBy), feedOnestopId, s.tags.GetOr(map[]), s.timezone)
  }

  /** make_change_route: identifiers without repeats, tags defaulting to {}, operator and stops by Onestop ID. */
  function MakeChangeRoute(r: TlRecord, feedOnestopId: string, operatedBy: string, serves: seq<string>): (b: ChangeBody)
    ensures b.RouteBody? && b.onestopId == r.onestopId && b.name == r.name
    ensures b.importedFromFeedOnestopId == feedOnestopId
    ensures NoDuplicates(b.identifiedBy) && forall i :: i in b.identifiedBy <==> i in r.identifiedBy
    ensures r.tags.None? ==> b.tags == map[]
    ensures r.tags.Some? ==> b.tags == r.tags.value
    ensures b.operatedBy == operatedBy && b.serves == serves
  {
    RouteBody(r.onestopId, r.name, Dedup(r.identifiedBy), feedOnestopId, operatedBy, serves, r.tags.GetOr(map[]))
  }

  /** Making the body again from its own identifiers changes nothing: they are already free of repeats. */
  lemma MakeChangeStopStable(s: TlRecord, feedOnestopId: string)
    ensures var b := MakeChangeStop(s, feedOnestopId);
            MakeChangeStop(s.(identifiedBy := b.identifiedBy), feedOnestopId) == b
  {
    DedupIdempotent(s.identifiedBy);
  }

  // ---------------------------------------------------------------------------
  // Change payloads (create_change_payloads)

  function TypedChanges(entityType: string, bodies: seq<ChangeBody>): (r: seq<Change>)
    ensures |r| == |bodies|
    ensures forall k :: 0 <= k < |r| ==> r[k] == CreateUpdateChange(entityType, bodies[k])
  {
    seq(|bodies|, k requires 0 <= k < |bodies| => CreateUpdateChange(entityType, bodies[k]))
  }

  /** The payloads create_change_payloads creates: one per slice of at most 1000 bodies. */
  function TypedPayloads(entityType: string, bodies: seq<ChangeBody>): seq<ChangePayload> {
    var slices := Chunks(bodies, CHANGE_PAYLOAD_MAX_ENTITIES);
    seq(|slices|, k requires 0 <= k < |slices| => ChangePayload(TypedChanges(entityType, slices[k])))
  }

  lemma {:induction false} AllChangesAppend(a: seq<ChangePayload>, b: seq<ChangePayload>)
    ensures AllChanges(a + b) == AllChanges(a) + AllChanges(b)
  {
    if a != [] {
      assert (a + b)[1..] == a[1..] + b;
      AllChangesAppend(a[1..], b);
    } else {
      assert a + b == b;
    }
  }

  lemma {:induction false} TypedChangesOfSlices(entityType: string, slices: seq<seq<ChangeBody>>)
    ensures AllChanges(seq(|slices|, k requires 0 <= k < |slices| => ChangePayload(TypedChanges(entityType, slices[k]))))
            == TypedChanges(entityType, Flatten(slices))
  {
    var ps := seq(|slices|, k requires 0 <= k < |slices| => ChangePayload(TypedChanges(entityType, slices[k])));
    if slices != [] {
      var tail := seq(|slices| - 1, k requires 0 <= k < |slices| - 1 => ChangePayload(TypedChanges(entityType, slices[1..][k])));
      assert ps[1..] == tail;
      TypedChangesOfSlices(entityType, slices[1..]);
      assert TypedChanges(entityType, slices[0] + Flatten(slices[1..]))
             == TypedChanges(entityType, slices[0]) + TypedChanges(entityType, Flatten(slices[1..]));
    }
  }

  /**
   * ceil(n / 1000) payloads of at most 1000 changes each; every body becomes
   * one createUpdate change keyed by the entity type, in input order.
   */
  lemma TypedPayloadsShape(entityType: string, bodies: seq<ChangeBody>)
    ensures |TypedPayloads(entityType, bodies)| == (|bodies| + 999) / 1000
    ensures forall k :: 0 <= k < |TypedPayloads(entityType, bodies)| ==>
              0 < |TypedPayloads(entityType, bodies)[k].changes| <= 1000
    ensures AllChanges(TypedPayloads(entityType, bodies)) == TypedChanges(entityType, bodies)
  {
    ChunksCount(bodies, CHANGE_PAYLOAD_MAX_ENTITIES);
    TypedChangesOfSlices(entityType, Chunks(bodies, CHANGE_PAYLOAD_MAX_ENTITIES));
  }

  /** At most 1000 bodies make exactly one payload. */
  lemma OneSlice(entityType: string, bodies: seq<ChangeBody>)
    requires 0 < |bodies| <= CHANGE_PAYLOAD_MAX_ENTITIES
    ensures TypedPayloads(entityType, bodies) == [ChangePayload(TypedChanges(entityType, bodies))]
  {
    assert Chunks(bodies, CHANGE_PAYLOAD_MAX_ENTITIES) == [bodies];
  }

  // ---------------------------------------------------------------------------
  // Schedule stop pair edges

  /** An edge between two consecutive stop times of a trip. */
  datatype Edge = Edge(trip: GtfsTrip, origin: StopTime, destination: StopTime)

  function Zip(trip: GtfsTrip, origins: seq<StopTime>, destinations: seq<StopTime>): (r: seq<Edge>)
    requires |origins| == |destinations|
    ensures |r| == |origins|
    ensures forall i :: 0 <= i < |r| ==> r[i] == Edge(trip, origins[i], destinations[i])
  {
    if origins == [] then []
    else [Edge(trip, origins[0], destinations[0])] + Zip(trip, origins[1..], destinations[1..])
  }

  /**
   * `stop_times[0..-2].zip(stop_times[1..-1])`. For an empty list the second
   * slice is nil, and zip raises TypeError on nil.
   */
  function TripEdges(t: TripStopTimes): (r: Result<seq<Edge>, Error>)
    ensures r.Failure? <==> t.stopTimes == []
    ensures r.Success? ==> |r.value| == |t.stopTimes| - 1
    ensures r.Success? ==> forall i :: 0 <= i < |r.value| ==>
              r.value[i] == Edge(t.trip, t.stopTimes[i], t.stopTimes[i + 1])
  {
    if t.stopTimes == [] then Failure(TypeError("wrong argument type NilClass (must respond to :each)"))
    else
      var n := |t.stopTimes|;
      Success(Zip(t.trip, t.stopTimes[..n - 1], t.stopTimes[1..]))
  }

  function MapEdges(edges: seq<Edge>, body: Edge -> ChangeBody): (r: seq<ChangeBody>)
    ensures |r| == |edges|
    ensures forall i :: 0 <= i < |r| ==> r[i] == body(edges[i])
  {
    seq(|edges|, i requires 0 <= i < |edges| => body(edges[i]))
  }

  /** The schedule stop pair bodies of one trip chunk, trip by trip. */
  function ChunkBodies(chunk: seq<TripStopTimes>, body: Edge -> ChangeBody): (r: Result<seq<ChangeBody>, Error>)
    ensures r.Failure? <==> exists t :: t in chunk && t.stopTimes == []
  {
    if chunk == [] then Success([])
    else
      match TripEdges(chunk[0])
      case Failure(e) => Failure(e)
      case Success(edges) =>
        match ChunkBodies(chunk[1..], body)
        case Failure(e) =>
          assert forall t :: t in chunk[1..] ==> t in chunk;
          Failure(e)
        case Success(rest) =>
          assert forall t :: t in chunk ==> t == chunk[0] || t in chunk[1..];
          Success(MapEdges(edges, body) + rest)
  }

  /** The schedule stop pair payloads of all trip chunks, chunk by chunk. */
  function SspPayloads(chunks: seq<seq<TripStopTimes>>, body: Edge -> ChangeBody): Result<seq<ChangePayload>, Error> {
    if chunks == [] then Success([])
    else
      match ChunkBodies(chunks[0], body)
      case Failure(e) => Failure(e)
      case Success(bodies) =>
        match SspPayloads(chunks[1..], body)
        case Failure(e) => Failure(e)
        case Success(rest) => Success(TypedPayloads("scheduleStopPair", bodies) + rest)
  }

  /** Every schedule stop pair payload holds at most 1000 createUpdate changes. */
  lemma {:induction false} SspPayloadsShape(chunks: seq<seq<TripStopTimes>>, body: Edge -> ChangeBody)
    requires SspPayloads(chunks, body).Success?
    ensures forall k :: 0 <= k < |SspPayloads(chunks, body).value| ==>
              0 < |SspPayloads(chunks, body).value[k].changes| <= 1000
    ensures forall c :: c in AllChanges(SspPayloads(chunks, body).value) ==>
              c.action == CreateUpdate && c.entityType == "scheduleStopPair" && c.issuesResolved == []
  {
    if chunks != [] {
      var bodies := ChunkBodies(chunks[0], body).value;
      var rest := SspPayloads(chunks[1..], body).value;
      SspPayloadsShape(chunks[1..], body);
      TypedPayloadsShape("scheduleStopPair", bodies);
      AllChangesAppend(TypedPayloads("scheduleStopPair", bodies), rest);
    }
  }

  /** The payloads create_changeset adds, by import level. */
  function ImportPayloads(level: int, operatorBodies: seq<ChangeBody>, stopBodies: seq<ChangeBody>,
                          routeBodies: seq<ChangeBody>, ssp: Result<seq<ChangePayload>, Error>): Result<seq<ChangePayload>, Error>
  {
    var head := TypedPayloads("operator", operatorBodies)
                + (if level >= 1 then TypedPayloads("stop", stopBodies) + TypedPayloads("route", routeBodies) else []);
    if level >= 2 then
      match ssp
      case Failure(e) => Failure(e)
      case Success(ps) => Success(head + ps)
    else Success(head)
  }

  /** The entity types an import level may write. */
  predicate AllowedAt(level: int, entityType: string) {
    entityType == "operator"
    || (level >= 1 && (entityType == "stop" || entityType == "route"))
    || (level >= 2 && entityType == "scheduleStopPair")
  }

  /** No payload is empty and none holds more than CHANGE_PAYLOAD_MAX_ENTITIES changes. */
  ghost predicate WellSized(ps: seq<ChangePayload>) {
    forall k :: 0 <= k < |ps| ==> 0 < |ps[k].changes| <= CHANGE_PAYLOAD_MAX_ENTITIES
  }

  /** Every change is a createUpdate of an entity type the level allows, resolving no issue. */
  ghost predicate CreatesAllowed(ps: seq<ChangePayload>, level: int) {
    forall c :: c in AllChanges(ps) ==>
      c.action == CreateUpdate && c.issuesResolved == [] && AllowedAt(level, c.entityType)
  }

  lemma WellSizedAppend(a: seq<ChangePayload>, b: seq<ChangePayload>)
    requires WellSized(a) && WellSized(b)
    ensures WellSized(a + b)
  {
    forall k | 0 <= k < |a + b|
      ensures 0 < |(a + b)[k].changes| <= CHANGE_PAYLOAD_MAX_ENTITIES
    {
      if k >= |a| {
        assert (a + b)[k] == b[k - |a|];
      }
    }
  }

  lemma CreatesAllowedAppend(a: seq<ChangePayload>, b: seq<ChangePayload>, level: int)
    requires CreatesAllowed(a, level) && CreatesAllowed(b, level)
    ensures CreatesAllowed(a + b, level)
  {
    AllChangesAppend(a, b);
  }

  /** The payloads of one entity type the level allows are well sized and only create. */
  lemma TypedPayloadsAllowed(entityType: string, bodies: seq<ChangeBody>, level: int)
    requires AllowedAt(level, entityType)
    ensures WellSized(TypedPayloads(entityType, bodies))
    ensures CreatesAllowed(TypedPayloads(entityType, bodies), level)
  {
    TypedPayloadsShape(entityType, bodies);
  }

  /**
   * Import-level gating: the operator payloads come first; stops and routes
   * follow only from level 1, schedule stop pairs only at level 2; every
   * change is a createUpdate and no payload holds more than 1000 changes.
   */
  lemma ImportLevelGating(level: int, operatorBodies: seq<ChangeBody>, stopBodies: seq<ChangeBody>,
                          routeBodies: seq<ChangeBody>, chunks: seq<seq<TripStopTimes>>, body: Edge -> ChangeBody)
    requires ImportPayloads(level, operatorBodies, stopBodies, routeBodies, SspPayloads(chunks, body)).Success?
    ensures var ps := ImportPayloads(level, operatorBodies, stopBodies, routeBodies, SspPayloads(chunks, body)).value;
            var ops := TypedPayloads("operator", operatorBodies);
            && ps[..|ops|] == ops
            && (level < 1 ==> ps == ops)
            && WellSized(ps)
            && CreatesAllowed(ps, level)
  {
    var ops := TypedPayloads("operator", operatorBodies);
    TypedPayloadsAllowed("operator", operatorBodies, level);
    var mid: seq<ChangePayload> := [];
    if level >= 1 {
      var stops := TypedPayloads("stop", stopBodies);
      var routes := TypedPayloads("route", routeBodies);
      TypedPayloadsAllowed("stop", stopBodies, level);
      TypedPayloadsAllowed("route", routeBodies, level);
      WellSizedAppend(stops, routes);
      CreatesAllowedAppend(stops, routes, level);
      mid := stops + routes;
    }
    var head := ops + mid;
    WellSizedAppend(ops, mid);
    CreatesAllowedAppend(ops, mid, level);
    assert head[..|ops|] == ops;
    if level < 1 {
      assert head == ops;
    }
    if level >= 2 {
      var ssp := SspPayloads(chunks, body).value;
      SspPayloadsShape(chunks, body);
      assert CreatesAllowed(ssp, level);
      WellSizedAppend(head, ssp);
      CreatesAllowedAppend(head, ssp, level);
      assert (head + ssp)[..|ops|] == ops;
    }
  }

  /**
   * The identifier loop of load_tl_stops: each entity of the group adds an
   * identifier to the stop and maps to the stop's handle.
   */
  method AddIdentifiers(rec: TlRecord, feedOnestopId: string, group: seq<GtfsStop>, h: nat, mapped: map<GtfsStop, nat>)
    returns (rec': TlRecord, mapped': map<GtfsStop, nat>)
    ensures rec' == WithIdentifiers(rec, feedOnestopId, group)
    ensures mapped' == mapped + (map e | e in group :: h)
  {
    rec', mapped' := rec, mapped;
    var j := 0;
    while j < |group|
      invariant 0 <= j <= |group|
      invariant rec' == WithIdentifiers(rec, feedOnestopId, group[..j])
      invariant mapped' == mapped + (map e | e in group[..j] :: h)
    {
      TakeOneMore(group, j);
      WithIdentifiersStep(rec, feedOnestopId, group, j);
      ConstMapStep(mapped, group[..j], group[j], h);
      rec' := WithIdentifier(rec', feedOnestopId, group[j].id);
      mapped' := mapped'[group[j] := h];
      j := j + 1;
    }
    assert group[..j] == group;
  }

  lemma WithIdentifiersStep(rec: TlRecord, feedOnestopId: string, group: seq<GtfsStop>, j: nat)
    requires j < |group|
    ensures WithIdentifiers(rec, feedOnestopId, group[..j + 1])
            == WithIdentifier(WithIdentifiers(rec, feedOnestopId, group[..j]), feedOnestopId, group[j].id)
  {
    TakeOneMore(group, j);
    var a := seq(j, k requires 0 <= k < j => Identifier(feedOnestopId, group[..j][k].id));
    var b := seq(j + 1, k requires 0 <= k < j + 1 => Identifier(feedOnestopId, group[..j + 1][k].id));
    assert b == a + [Identifier(feedOnestopId, group[j].id)];
    AppendAssoc(rec.identifiedBy, a, [Identifier(feedOnestopId, group[j].id)]);
  }

  lemma ConstMapStep(mapped: map<GtfsStop, nat>, before: seq<GtfsStop>, x: GtfsStop, h: nat)
    ensures mapped + (map e | e in before + [x] :: h) == (mapped + (map e | e in before :: h))[x := h]
  {
  }

  // ---------------------------------------------------------------------------
  // The graph

  /** The messages of create_changeset's argument checks. */
  const NoOperators := "At least one operator required"
  const BadImportLevel := "import_level must be 0, 1, or 2."

  class GtfsGraph {
    const feed: FeedRecord
    const gtfs: GtfsSource
    const db: Lookups
    var stops: seq<TlRecord>
    var routes: seq<TlRoute>
    var operators: seq<TlOperator>
    // @gtfs_tl, split by kind
    var stopOf: map<GtfsStop, nat>
    var routeOf: map<GtfsRoute, nat>
    var operatorOf: map<GtfsAgency, nat>
    // @tl_by_onestop_id, split by kind (Onestop ID prefixes keep the kinds apart)
    var stopByOnestopId: map<string, nat>
    var routeByOnestopId: map<string, nat>
    var operatorByOnestopId: map<string, nat>

    /** Every handle in a hash or an object points into its heap. */
    ghost predicate Valid()
      reads this
    {
      GraphValid(stops, routes, operators, stopOf, stopByOnestopId, routeOf, routeByOnestopId, operatorOf, operatorByOnestopId)
    }

    function StopIds(): seq<Option<nat>>
      reads this`stops
    {
      Ids(stops, StopRec)
    }

    function RouteIds(): seq<Option<nat>>
      reads this`routes
    {
      Ids(routes, RouteRec)
    }

    function OperatorIds(): seq<Option<nat>>
      reads this`operators
    {
      Ids(operators, OperatorRec)
    }

    /** How a Ruby Set compares this graph's stop, route and operator objects. */
    function StopKey(): nat -> Identity
      reads this`stops
    {
      KeyIn(StopIds())
    }

    function RouteKey(): nat -> Identity
      reads this`routes
    {
      KeyIn(RouteIds())
    }

    function OperatorKey(): nat -> Identity
      reads this`operators
    {
      KeyIn(OperatorIds())
    }

    constructor (feed: FeedRecord, gtfs: GtfsSource, db: Lookups)
      ensures Valid()
      ensures this.feed == feed && this.gtfs == gtfs && this.db == db
      ensures stops == [] && routes == [] && operators == []
      ensures stopOf == map[] && routeOf == map[] && operatorOf == map[]
      ensures stopByOnestopId == map[] && routeByOnestopId == map[] && operatorByOnestopId == map[]
    {
      this.feed, this.gtfs, this.db := feed, gtfs, db;
      stops, routes, operators := [], [], [];
      stopOf, routeOf, operatorOf := map[], map[], map[];
      stopByOnestopId, routeByOnestopId, operatorByOnestopId := map[], map[], map[];
    }

    // -------------------------------------------------------------------------
    // load_tl_stops

    /** The candidate stop for a station: a similar stop, or one built from GTFS. */
    function StopCandidate(station: GtfsStop): TlRecord {
      var built := Built(db.stopFromGtfs(station));
      Loaded(db.similarStop(built)).GetOr(built)
    }

    function StopChoice(station: GtfsStop): (nat, TlRecord)
      reads this
      requires Valid()
    {
      var cand := StopCandidate(station);
      Choose(Loaded(db.storedStop(cand.onestopId)), stopByOnestopId, stops, cand.onestopId, cand)
    }

    /**
     * One station of load_tl_stops: the chosen stop gets an identifier for
     * the station and each platform, and all of them map to its handle.
     */
    method LoadTlStation(station: GtfsStop, platforms: seq<GtfsStop>) returns (h: nat)
      requires Valid()
      modifies this
      ensures Valid()
      ensures h == old(StopChoice(station)).0
      ensures stops == Put(old(stops), h, WithIdentifiers(old(StopChoice(station)).1, feed.onestopId, [station] + platforms))
      ensures stopOf == old(stopOf) + (map e | e in [station] + platforms :: h)
      ensures stopByOnestopId == old(stopByOnestopId)[old(StopChoice(station)).1.onestopId := h]
      ensures routes == old(routes) && operators == old(operators)
      ensures routeOf == old(routeOf) && operatorOf == old(operatorOf)
      ensures routeByOnestopId == old(routeByOnestopId) && operatorByOnestopId == old(operatorByOnestopId)
    {
      var c := StopChoice(station);
      h := c.0;
      var rec, mapped := AddIdentifiers(c.1, feed.onestopId, [station] + platforms, h, stopOf);
      stops := Put(stops, h, rec);
      stopOf := mapped;
      stopByOnestopId := stopByOnestopId[rec.onestopId := h];
    }

    /**
     * load_tl_stops: every GTFS stop is mapped to a Transitland stop; with
     * one level of stations, a stop maps to the same Transitland stop as
     * its station.
     */
    method LoadTlStops()
      requires Valid()
      modifies this
      ensures Valid()
      ensures routes == old(routes) && operators == old(operators)
      ensures routeOf == old(routeOf) && operatorOf == old(operatorOf)
      ensures routeByOnestopId == old(routeByOnestopId) && operatorByOnestopId == old(operatorByOnestopId)
      ensures forall g :: g in old(stopOf) ==> g in stopOf
      ensures forall s :: s in gtfs.stops ==> s in stopOf
      ensures TwoLevel(gtfs) ==> forall s :: s in gtfs.stops ==> stopOf[s] == stopOf[StationOf(gtfs, s)]
    {
      var keys, members := GroupStations(gtfs);
      var i := 0;
      while i < |keys|
        invariant 0 <= i <= |keys|
        invariant Valid()
        invariant routes == old(routes) && operators == old(operators)
        invariant routeOf == old(routeOf) && operatorOf == old(operatorOf)
        invariant routeByOnestopId == old(routeByOnestopId) && operatorByOnestopId == old(operatorByOnestopId)
        invariant forall g :: g in old(stopOf) ==> g in stopOf
        invariant StationsMapped(gtfs, keys[..i], stopOf)
      {
        ghost var before := stopOf;
        var h := LoadTlStation(keys[i], members[keys[i]]);
        StationsMappedStep(gtfs, keys, members, i, before, h);
        i := i + 1;
      }
      assert keys[..i] == keys;
      StationsMappedAll(gtfs, keys, members, stopOf);
    }

    // -------------------------------------------------------------------------
    // load_tl_routes

    /**
     * The Transitland stops a route's trips visit, as a set: each stop the
     * route's GTFS stops map to, once per stored row.
     */
    function RouteStops(g: GtfsRoute): (r: seq<nat>)
      reads this`stops, this`stopOf
      ensures KeysDistinct(r, StopKey())
      ensures forall h :: h in r ==> exists s :: s in RouteGtfsStops(g) && s in stopOf && stopOf[s] == h
      ensures forall s :: s in RouteGtfsStops(g) && s in stopOf ==> HasKey(r, StopKey(), StopKey()(stopOf[s]))
    {
      DedupBy(ValuesPresent(RouteGtfsStops(g), stopOf), StopKey())
    }

    /** Some GTFS stop the route's trips visit has a Transitland stop. */
    predicate VisitsMappedStop(g: GtfsRoute)
      reads this`stopOf
    {
      exists s :: s in RouteGtfsStops(g) && s in stopOf
    }

    /** A route's set of stops is empty exactly when none of its GTFS stops is mapped. */
    lemma RouteStopsEmpty(g: GtfsRoute)
      ensures RouteStops(g) == [] <==> !VisitsMappedStop(g)
    {
      if VisitsMappedStop(g) {
        var s :| s in RouteGtfsStops(g) && s in stopOf;
        assert HasKey(RouteStops(g), StopKey(), StopKey()(stopOf[s]));
      }
    }

    function RouteChoice(g: GtfsRoute): (nat, TlRoute)
      reads this
      requires Valid()
    {
      var served := RouteStops(g);
      assert forall k :: 0 <= k < |served| ==> served[k] in served;
      var cand := Built(db.routeFromGtfs(g, Records(stops, served)));
      var stored := match Loaded(db.storedRoute(cand.onestopId))
                    case Some(rec) => Some(TlRoute(rec, [], None))
                    case None => None;
      Choose(stored, routeByOnestopId, routes, cand.onestopId, TlRoute(cand, [], None))
    }

    /** The chosen route is valid, and is the object at its handle when that handle is taken. */
    lemma RouteChoiceValid(g: GtfsRoute)
      requires Valid()
      ensures RouteChoice(g).0 <= |routes|
      ensures RouteChoice(g).0 < |routes| ==> RouteChoice(g).1 == routes[RouteChoice(g).0]
      ensures RouteValid(RouteChoice(g).1, |stops|, |operators|)
      ensures forall h :: h in RouteStops(g) ==> h < |stops|
    {
    }

    /**
     * One route of load_tl_routes: a route whose trips visit no mapped stop
     * is skipped; otherwise the chosen route serves its old stops and the new
     * ones, gets an identifier, and the GTFS route maps to it.
     */
    method LoadTlRoute(g: GtfsRoute) returns (h: Option<nat>)
      requires Valid()
      modifies this
      ensures Valid()
      ensures stops == old(stops) && operators == old(operators)
      ensures stopOf == old(stopOf) && operatorOf == old(operatorOf)
      ensures stopByOnestopId == old(stopByOnestopId) && operatorByOnestopId == old(operatorByOnestopId)
      ensures !old(VisitsMappedStop(g)) ==>
                h.None? && routes == old(routes) && routeOf == old(routeOf) && routeByOnestopId == old(routeByOnestopId)
      ensures old(VisitsMappedStop(g)) ==>
                var c := old(RouteChoice(g));
                && h == Some(c.0)
                && routes == Put(old(routes), c.0, TlRoute(WithIdentifier(c.1.rec, feed.onestopId, g.id),
                                                           UnionBy(c.1.serves, old(RouteStops(g)), old(StopKey())), c.1.operator))
                && routeOf == old(routeOf)[g := c.0]
                && routeByOnestopId == old(routeByOnestopId)[c.1.rec.onestopId := c.0]
    {
      var served := RouteStops(g);
      RouteStopsEmpty(g);
      if served == [] {
        return None;
      }
      var c := RouteChoice(g);
      UpdatedRouteValid(g);
      var updated := TlRoute(WithIdentifier(c.1.rec, feed.onestopId, g.id), UnionBy(c.1.serves, served, StopKey()), c.1.operator);
      SetRouteState(Put(routes, c.0, updated), routeOf[g := c.0], routeByOnestopId[c.1.rec.onestopId := c.0]);
      h := Some(c.0);
    }

    /** Writing the route LoadTlRoute builds, and mapping it, leaves a valid graph. */
    lemma UpdatedRouteValid(g: GtfsRoute)
      requires Valid()
      ensures var c := RouteChoice(g);
              var x := TlRoute(WithIdentifier(c.1.rec, feed.onestopId, g.id), UnionBy(c.1.serves, RouteStops(g), StopKey()), c.1.operator);
              && c.0 <= |routes|
              && GraphValid(stops, Put(routes, c.0, x), operators, stopOf, stopByOnestopId,
                            routeOf[g := c.0], routeByOnestopId[c.1.rec.onestopId := c.0], operatorOf, operatorByOnestopId)
    {
      RouteChoiceValid(g);
      var c := RouteChoice(g);
      var served := RouteStops(g);
      var serves := UnionBy(c.1.serves, served, StopKey());
      UnionByBelow(c.1.serves, served, StopKey(), |stops|);
      var x := TlRoute(WithIdentifier(c.1.rec, feed.onestopId, g.id), serves, c.1.operator);
      WriteRouteValid(stops, routes, operators, stopOf, stopByOnestopId, routeOf, routeByOnestopId, operatorOf, operatorByOnestopId,
                      g, c.1.rec.onestopId, c.0, x);
    }

    /** Replaces the routes and the route hashes with a valid new set. */
    method SetRouteState(routes': seq<TlRoute>, routeOf': map<GtfsRoute, nat>, routeByOnestopId': map<string, nat>)
      requires GraphValid(stops, routes', operators, stopOf, stopByOnestopId, routeOf', routeByOnestopId', operatorOf, operatorByOnestopId)
      modifies this
      ensures Valid()
      ensures routes == routes' && routeOf == routeOf' && routeByOnestopId == routeByOnestopId'
      ensures stops == old(stops) && operators == old(operators)
      ensures stopOf == old(stopOf) && operatorOf == old(operatorOf)
      ensures stopByOnestopId == old(stopByOnestopId) && operatorByOnestopId == old(operatorByOnestopId)
    {
      routes, routeOf, routeByOnestopId := routes', routeOf', routeByOnestopId';
    }

    /** load_tl_routes: each GTFS route with a mapped stop is mapped; the others are skipped. */
    method LoadTlRoutes()
      requires Valid()
      modifies this
      ensures Valid()
      ensures stops == old(stops) && operators == old(operators)
      ensures stopOf == old(stopOf) && operatorOf == old(operatorOf)
      ensures stopByOnestopId == old(stopByOnestopId) && operatorByOnestopId == old(operatorByOnestopId)
      ensures forall g :: g in gtfs.routes && VisitsMappedStop(g) ==> g in routeOf
      ensures forall g :: g in routeOf <==> g in old(routeOf) || (g in gtfs.routes && VisitsMappedStop(g))
    {
      var i := 0;
      while i < |gtfs.routes|
        invariant 0 <= i <= |gtfs.routes|
        invariant Valid()
        invariant stops == old(stops) && operators == old(operators)
        invariant stopOf == old(stopOf) && operatorOf == old(operatorOf)
        invariant stopByOnestopId == old(stopByOnestopId) && operatorByOnestopId == old(operatorByOnestopId)
        invariant forall g :: g in gtfs.routes[..i] && VisitsMappedStop(g) ==> g in routeOf
        invariant forall g :: g in routeOf <==> g in old(routeOf) || (g in gtfs.routes[..i] && VisitsMappedStop(g))
      {
        var g := gtfs.routes[i];
        assert gtfs.routes[..i + 1] == gtfs.routes[..i] + [g];
        var h := LoadTlRoute(g);
        i := i + 1;
      }
      assert gtfs.routes[..i] == gtfs.routes;
    }

    // -------------------------------------------------------------------------
    // load_tl_operators

    /** The Transitland routes of an agency's GTFS routes, as a set; skipped routes drop out. */
    function AgencyRoutes(agency: GtfsAgency): (r: seq<nat>)
      reads this
      requires Valid()
      ensures KeysDistinct(r, RouteKey())
      ensures forall k :: 0 <= k < |r| ==> r[k] < |routes|
    {
      var d := DedupBy(ValuesPresent(RoutesOfAgency(gtfs, agency), routeOf), RouteKey());
      assert forall k :: 0 <= k < |d| ==> d[k] in d;
      d
    }

    /**
     * An operator's routes are mapped routes of its agency, and every mapped
     * route of the agency is one of them.
     */
    lemma AgencyRoutesMembers(agency: GtfsAgency)
      requires Valid()
      ensures forall h :: h in AgencyRoutes(agency) ==>
                exists g :: g in gtfs.routes && g.agencyId == agency.id && g in routeOf && routeOf[g] == h
      ensures forall g :: g in gtfs.routes && g.agencyId == agency.id && g in routeOf ==>
                HasKey(AgencyRoutes(agency), RouteKey(), RouteKey()(routeOf[g]))
    {
    }

    function OperatorChoice(oif: OperatorInFeed, agency: GtfsAgency): (nat, TlOperator)
      reads this
      requires Valid()
    {
      var cand := Built(db.operatorFromGtfs(agency)).(onestopId := oif.operatorOnestopId);
      var stored := match Loaded(db.storedOperator(cand.onestopId))
                    case Some(rec) => Some(TlOperator(rec, []))
                    case None => None;
      Choose(stored, operatorByOnestopId, operators, cand.onestopId, TlOperator(cand, []))
    }

    /** The chosen operator is valid, and is the object at its handle when that handle is taken. */
    lemma OperatorChoiceValid(oif: OperatorInFeed, agency: GtfsAgency)
      requires Valid()
      ensures OperatorChoice(oif, agency).0 <= |operators|
      ensures OperatorChoice(oif, agency).0 < |operators| ==> OperatorChoice(oif, agency).1 == operators[OperatorChoice(oif, agency).0]
      ensures OperatorValid(OperatorChoice(oif, agency).1, routes)
    {
    }

    /**
     * One operator of load_tl_operators. An operator whose agency is not in
     * the feed is skipped. Otherwise the chosen operator fills in the
     * missing timezones of the stops its routes serve, becomes the operator
     * of those routes, serves them, and gets an identifier.
     */
    method LoadTlOperator(oif: OperatorInFeed) returns (h: Option<nat>)
      requires Valid()
      modifies this
      ensures Valid()
      ensures old(OperatorIds()) <= OperatorIds()
      ensures stopOf == old(stopOf) && routeOf == old(routeOf)
      ensures stopByOnestopId == old(stopByOnestopId) && routeByOnestopId == old(routeByOnestopId)
      ensures AgencyById(gtfs.agencies, oif.gtfsAgencyId).None? ==>
                h.None? && stops == old(stops) && routes == old(routes) && operators == old(operators)
                && operatorOf == old(operatorOf) && operatorByOnestopId == old(operatorByOnestopId)
      ensures AgencyById(gtfs.agencies, oif.gtfsAgencyId).Some? ==>
                var agency := AgencyById(gtfs.agencies, oif.gtfsAgencyId).value;
                var rs := old(AgencyRoutes(agency));
                var c := old(OperatorChoice(oif, agency));
                && h == Some(c.0)
                && stops == FillTimezones(old(stops), old(ServedStops(rs)), c.1.rec.timezone)
                && routes == SetOperator(old(routes), rs, c.0)
                && operators == Put(old(operators), c.0, TlOperator(WithIdentifier(c.1.rec, feed.onestopId, agency.id),
                                                                    UnionBy(c.1.serves, rs, old(RouteKey()))))
                && operatorOf == old(operatorOf)[agency := c.0]
                && operatorByOnestopId == old(operatorByOnestopId)[c.1.rec.onestopId := c.0]
    {
      var found := AgencyById(gtfs.agencies, oif.gtfsAgencyId);
      if found.None? {
        return None;
      }
      var handle := LoadAgencyOperator(oif, found.value);
      h := Some(handle);
    }

    /** The objects and hashes LoadAgencyOperator leaves behind are valid. */
    lemma AgencyOperatorValid(oif: OperatorInFeed, agency: GtfsAgency)
      requires Valid()
      ensures var rs := AgencyRoutes(agency);
              var c := OperatorChoice(oif, agency);
              GraphValid(FillTimezones(stops, ServedStops(rs), c.1.rec.timezone), SetOperator(routes, rs, c.0),
                         Put(operators, c.0, TlOperator(WithIdentifier(c.1.rec, feed.onestopId, agency.id), UnionBy(c.1.serves, rs, RouteKey()))),
                         stopOf, stopByOnestopId, routeOf, routeByOnestopId,
                         operatorOf[agency := c.0], operatorByOnestopId[c.1.rec.onestopId := c.0])
    {
      var rs := AgencyRoutes(agency);
      var c := OperatorChoice(oif, agency);
      OperatorChoiceValid(oif, agency);
      AssignOperatorValid(|stops|, routes, operators, rs, c.0, WithIdentifier(c.1.rec, feed.onestopId, agency.id), c.1.serves, RouteKey());
    }

    /** The operator of an agency found in the feed; see LoadTlOperator. */
    method LoadAgencyOperator(oif: OperatorInFeed, agency: GtfsAgency) returns (h: nat)
      requires Valid()
      modifies this
      ensures Valid()
      ensures old(OperatorIds()) <= OperatorIds()
      ensures stopOf == old(stopOf) && routeOf == old(routeOf)
      ensures stopByOnestopId == old(stopByOnestopId) && routeByOnestopId == old(routeByOnestopId)
      ensures var rs := old(AgencyRoutes(agency));
              var c := old(OperatorChoice(oif, agency));
              && h == c.0
              && stops == FillTimezones(old(stops), old(ServedStops(rs)), c.1.rec.timezone)
              && routes == SetOperator(old(routes), rs, c.0)
              && operators == Put(old(operators), c.0, TlOperator(WithIdentifier(c.1.rec, feed.onestopId, agency.id),
                                                                  UnionBy(c.1.serves, rs, old(RouteKey()))))
              && operatorOf == old(operatorOf)[agency := c.0]
              && operatorByOnestopId == old(operatorByOnestopId)[c.1.rec.onestopId := c.0]
    {
      var rs := AgencyRoutes(agency);
      var served := ServedStops(rs);
      var c := OperatorChoice(oif, agency);
      OperatorChoiceValid(oif, agency);
      AgencyOperatorValid(oif, agency);
      var operator := c.1;
      var updated := TlOperator(WithIdentifier(operator.rec, feed.onestopId, agency.id), UnionBy(operator.serves, rs, RouteKey()));
      var filled := FillStopTimezones(stops, served, operator.rec.timezone);
      var owned := AssignOperator(routes, rs, c.0);
      PutKeepsIds(operators, c.0, updated, OperatorRec);
      SetOperatorState(filled, owned, Put(operators, c.0, updated), operatorOf[agency := c.0], operatorByOnestopId[updated.rec.onestopId := c.0]);
      h := c.0;
    }

    /** Replaces the objects and the operator hashes with a valid new set. */
    method SetOperatorState(stops': seq<TlRecord>, routes': seq<TlRoute>, operators': seq<TlOperator>,
                            operatorOf': map<GtfsAgency, nat>, operatorByOnestopId': map<string, nat>)
      requires GraphValid(stops', routes', operators', stopOf, stopByOnestopId, routeOf, routeByOnestopId, operatorOf', operatorByOnestopId')
      modifies this
      ensures Valid()
      ensures stops == stops' && routes == routes' && operators == operators'
      ensures operatorOf == operatorOf' && operatorByOnestopId == operatorByOnestopId'
      ensures stopOf == old(stopOf) && routeOf == old(routeOf)
      ensures stopByOnestopId == old(stopByOnestopId) && routeByOnestopId == old(routeByOnestopId)
    {
      stops, routes, operators := stops', routes', operators';
      operatorOf, operatorByOnestopId := operatorOf', operatorByOnestopId';
    }

    /**
     * load_tl_operators: the Set of operators found. No two of them come from
     * the same stored row. Every operator in feed whose agency the GTFS feed
     * has ends mapped to one of them, and none is found exactly when the
     * GTFS feed has none of those agencies.
     */
    method LoadTlOperators() returns (found: seq<nat>)
      requires Valid()
      modifies this
      ensures Valid()
      ensures stopOf == old(stopOf) && routeOf == old(routeOf)
      ensures KeysDistinct(found, OperatorKey()) && forall h :: h in found ==> h < |operators|
      ensures |found| <= |feed.operatorsInFeed|
      ensures forall k :: 0 <= k < |feed.operatorsInFeed| && AgencyById(gtfs.agencies, feed.operatorsInFeed[k].gtfsAgencyId).Some? ==>
                var agency := AgencyById(gtfs.agencies, feed.operatorsInFeed[k].gtfsAgencyId).value;
                agency in operatorOf && HasKey(found, OperatorKey(), OperatorKey()(operatorOf[agency]))
      ensures found == [] <==>
                forall k :: 0 <= k < |feed.operatorsInFeed| ==> AgencyById(gtfs.agencies, feed.operatorsInFeed[k].gtfsAgencyId).None?
    {
      found := [];
      var i := 0;
      while i < |feed.operatorsInFeed|
        invariant 0 <= i <= |feed.operatorsInFeed|
        invariant Valid()
        invariant stopOf == old(stopOf) && routeOf == old(routeOf)
        invariant KeysDistinct(found, OperatorKey()) && |found| <= i
        invariant forall h :: h in found ==> h < |operators|
        invariant AgenciesFound(gtfs, feed.operatorsInFeed[..i], operatorOf, found, OperatorKey())
        invariant found == [] <==>
                    forall k :: 0 <= k < i ==> AgencyById(gtfs.agencies, feed.operatorsInFeed[k].gtfsAgencyId).None?
      {
        ghost var before, mapped, key := found, operatorOf, OperatorKey();
        var oif := feed.operatorsInFeed[i];
        found := AddFeedOperator(oif, found);
        AgenciesFoundStep(gtfs, feed.operatorsInFeed[..i], oif, mapped, operatorOf, before, found, key, OperatorKey());
        TakeOneMore(feed.operatorsInFeed, i);
        i := i + 1;
      }
      assert feed.operatorsInFeed[..i] == feed.operatorsInFeed;
    }

    /**
     * One step of load_tl_operators, ending in `operators << operator`: the
     * operator of a known agency joins the found operators unless one from
     * the same stored row is already there, and the agency maps to it.
     * Agencies mapped to a found operator stay mapped to one.
     */
    method AddFeedOperator(oif: OperatorInFeed, found: seq<nat>) returns (found': seq<nat>)
      requires Valid()
      requires KeysDistinct(found, OperatorKey()) && forall h :: h in found ==> h < |operators|
      modifies this
      ensures Valid()
      ensures stopOf == old(stopOf) && routeOf == old(routeOf)
      ensures KeysDistinct(found', OperatorKey()) && forall h :: h in found' ==> h < |operators|
      ensures AgencyById(gtfs.agencies, oif.gtfsAgencyId).None? ==> found' == found
      ensures AgencyById(gtfs.agencies, oif.gtfsAgencyId).Some? ==>
                var agency := AgencyById(gtfs.agencies, oif.gtfsAgencyId).value;
                && agency in operatorOf
                && found' == if HasKey(found, OperatorKey(), OperatorKey()(operatorOf[agency])) then found
                             else found + [operatorOf[agency]]
      ensures forall a :: a in old(operatorOf) && HasKey(found, old(OperatorKey()), old(OperatorKey())(old(operatorOf)[a])) ==>
                a in operatorOf && HasKey(found', OperatorKey(), OperatorKey()(operatorOf[a]))
    {
      ghost var before := OperatorIds();
      ghost var mapped := operatorOf;
      ghost var agency := AgencyById(gtfs.agencies, oif.gtfsAgencyId);
      var h := LoadTlOperator(oif);
      assert h.None? ==> operatorOf == mapped;
      assert h.Some? ==> operatorOf == mapped[agency.value := h.value];
      var key := OperatorKey();
      FoundKept(before, OperatorIds(), found);
      found' := found;
      if h.Some? && !HasKey(found, key, key(h.value)) {
        found' := found + [h.value];
      }
      assert h.Some? ==> HasKey(found', key, key(h.value));
      forall a | a in mapped && HasKey(found, KeyIn(before), KeyIn(before)(mapped[a]))
        ensures a in operatorOf && HasKey(found', key, key(operatorOf[a]))
      {
        if h.None? || a != agency.value {
          FoundKeyKept(before, OperatorIds(), found, found', mapped[a]);
        }
      }
    }

    /** load_tl: stops, then routes, then operators. */
    method LoadTl() returns (found: seq<nat>)
      requires Valid()
      requires WellFormed(gtfs)
      modifies this
      ensures Valid()
      ensures KeysDistinct(found, OperatorKey()) && forall h :: h in found ==> h < |operators|
      ensures forall s :: s in gtfs.stops ==> s in stopOf
      ensures TwoLevel(gtfs) ==> forall s :: s in gtfs.stops ==> stopOf[s] == stopOf[StationOf(gtfs, s)]
      ensures forall g :: g in gtfs.routes && VisitsMappedStop(g) ==> g in routeOf
      ensures forall k :: 0 <= k < |feed.operatorsInFeed| && AgencyById(gtfs.agencies, feed.operatorsInFeed[k].gtfsAgencyId).Some? ==>
                var agency := AgencyById(gtfs.agencies, feed.operatorsInFeed[k].gtfsAgencyId).value;
                agency in operatorOf && HasKey(found, OperatorKey(), OperatorKey()(operatorOf[agency]))
      ensures found == [] <==>
                forall k :: 0 <= k < |feed.operatorsInFeed| ==> AgencyById(gtfs.agencies, feed.operatorsInFeed[k].gtfsAgencyId).None?
    {
      LoadTlStops();
      LoadTlRoutes();
      found := LoadTlOperators();
    }

    // -------------------------------------------------------------------------
    // create_changeset

    /**
     * `operators.map(&:serves).reduce(Set.new, :+)`: the Set of routes the
     * operators serve, one per stored row.
     */
    function OperatorRoutes(ops: seq<nat>): (r: seq<nat>)
      reads this
      requires Valid()
      requires forall k :: 0 <= k < |ops| ==> ops[k] < |operators|
      ensures KeysDistinct(r, RouteKey())
      ensures forall h :: h in r ==> exists j :: j in ops && h in operators[j].serves
      ensures forall j :: j in ops ==> forall h :: h in operators[j].serves ==> HasKey(r, RouteKey(), RouteKey()(h))
      ensures forall k :: 0 <= k < |r| ==> r[k] < |routes| && routes[r[k]].operator.Some?
    {
      assert forall h :: h in ops ==> h < |operators|;
      var d := DedupBy(ServesOf(operators, ops, (o: TlOperator) => o.serves), RouteKey());
      assert forall k :: 0 <= k < |d| ==> d[k] in d;
      d
    }

    /**
     * `routes.map(&:serves).reduce(Set.new, :+)`: the Set of stops the routes
     * serve, one per stored row.
     */
    function ServedStops(rs: seq<nat>): (r: seq<nat>)
      reads this
      requires Valid()
      requires forall k :: 0 <= k < |rs| ==> rs[k] < |routes|
      ensures KeysDistinct(r, StopKey())
      ensures forall k :: 0 <= k < |r| ==> r[k] < |stops|
    {
      assert forall h :: h in rs ==> h < |routes|;
      var d := DedupBy(ServesOf(routes, rs, (r: TlRoute) => r.serves), StopKey());
      assert forall k :: 0 <= k < |d| ==> d[k] in d;
      d
    }

    /**
     * The served stops are stops some of the routes serve, and every stop a
     * route serves is one of them.
     */
    lemma ServedStopsMembers(rs: seq<nat>)
      requires Valid()
      requires forall k :: 0 <= k < |rs| ==> rs[k] < |routes|
      ensures forall h :: h in ServedStops(rs) ==> exists j :: j in rs && h in routes[j].serves
      ensures forall j :: j in rs ==> forall h :: h in routes[j].serves ==> HasKey(ServedStops(rs), StopKey(), StopKey()(h))
    {
      assert forall h :: h in rs ==> h < |routes|;
    }

    /** `operators.map { |e| make_change_operator(e) }`. */
    function OperatorBodies(ops: seq<nat>): (r: seq<ChangeBody>)
      reads this
      requires forall k :: 0 <= k < |ops| ==> ops[k] < |operators|
      ensures |r| == |ops|
      ensures forall k :: 0 <= k < |ops| ==> r[k] == MakeChangeOperator(operators[ops[k]].rec, feed.onestopId)
    {
      var heap := operators;
      seq(|ops|, k requires 0 <= k < |ops| && ops[k] < |heap| => MakeChangeOperator(heap[ops[k]].rec, feed.onestopId))
    }

    /** `stops.map { |e| make_change_stop(e) }`. */
    function StopBodies(ss: seq<nat>): (r: seq<ChangeBody>)
      reads this
      requires forall k :: 0 <= k < |ss| ==> ss[k] < |stops|
      ensures |r| == |ss|
      ensures forall k :: 0 <= k < |ss| ==> r[k] == MakeChangeStop(stops[ss[k]], feed.onestopId)
    {
      var heap := stops;
      seq(|ss|, k requires 0 <= k < |ss| && ss[k] < |heap| => MakeChangeStop(heap[ss[k]], feed.onestopId))
    }

    /** make_change_route on a route with an operator: the operator and stops by Onestop ID. */
    function RouteBody(r: nat): ChangeBody
      reads this
      requires Valid()
      requires r < |routes| && routes[r].operator.Some?
    {
      var route := routes[r];
      assert RouteValid(route, |stops|, |operators|);
      assert forall k :: 0 <= k < |route.serves| ==> route.serves[k] in route.serves;
      MakeChangeRoute(route.rec, feed.onestopId, operators[route.operator.value].rec.onestopId,
                      OnestopIds(stops, route.serves))
    }

    /** `routes.map { |e| make_change_route(e) }`. */
    function RouteBodies(rs: seq<nat>): (r: seq<ChangeBody>)
      reads this
      requires Valid()
      requires forall k :: 0 <= k < |rs| ==> rs[k] < |routes| && routes[rs[k]].operator.Some?
      ensures |r| == |rs|
      ensures forall k :: 0 <= k < |rs| ==> r[k] == RouteBody(rs[k])
    {
      if rs == [] then []
      else [RouteBody(rs[0])] + RouteBodies(rs[1..])
    }

    /** The payloads create_changeset builds for these operators at this level. */
    function ChangesetPayloads(ops: seq<nat>, level: int, chunks: seq<seq<TripStopTimes>>, body: Edge -> ChangeBody): Result<seq<ChangePayload>, Error>
      reads this
      requires Valid()
      requires forall k :: 0 <= k < |ops| ==> ops[k] < |operators|
    {
      var rs := OperatorRoutes(ops);
      var ss := ServedStops(rs);
      ImportPayloads(level, OperatorBodies(ops), StopBodies(ss), RouteBodies(rs), SspPayloads(chunks, body))
    }

    /**
     * create_change_payloads: appends one payload per slice of at most 1000
     * bodies, each change a createUpdate keyed by the entity type.
     */
    method CreateChangePayloads(changeset: Changeset, entityType: string, bodies: seq<ChangeBody>)
      modifies changeset
      ensures changeset.State() == old(changeset.State()).(payloads := old(changeset.payloads) + TypedPayloads(entityType, bodies))
    {
      var slices := Chunks(bodies, CHANGE_PAYLOAD_MAX_ENTITIES);
      var created: seq<ChangePayload> := [];
      var i := 0;
      while i < |slices|
        invariant 0 <= i <= |slices|
        invariant created == TypedPayloads(entityType, bodies)[..i]
        invariant changeset.State() == old(changeset.State()).(payloads := old(changeset.payloads) + created)
      {
        var changes: seq<Change> := [];
        var j := 0;
        while j < |slices[i]|
          invariant 0 <= j <= |slices[i]|
          invariant changes == TypedChanges(entityType, slices[i][..j])
        {
          changes := changes + [CreateUpdateChange(entityType, slices[i][j])];
          j := j + 1;
        }
        assert slices[i][..j] == slices[i];
        changeset.AddPayload(ChangePayload(changes));
        assert TypedPayloads(entityType, bodies)[..i + 1] == created + [ChangePayload(changes)];
        created := created + [ChangePayload(changes)];
        i := i + 1;
      }
      assert created == TypedPayloads(entityType, bodies);
    }

    /** The schedule stop pair bodies of one trip: one per edge, in order. */
    method TripSsps(edges: seq<Edge>, body: Edge -> ChangeBody) returns (sspTrip: seq<ChangeBody>)
      ensures sspTrip == MapEdges(edges, body)
    {
      sspTrip := [];
      var j := 0;
      while j < |edges|
        invariant 0 <= j <= |edges|
        invariant sspTrip == MapEdges(edges[..j], body)
      {
        sspTrip := sspTrip + [body(edges[j])];
        j := j + 1;
      }
      assert edges[..j] == edges;
    }

    /** The schedule stop pair bodies of one trip chunk: each trip's edges, in order. */
    method ChunkSsps(chunk: seq<TripStopTimes>, body: Edge -> ChangeBody) returns (r: Result<seq<ChangeBody>, Error>)
      ensures r == ChunkBodies(chunk, body)
    {
      var sspChunk: seq<ChangeBody> := [];
      var i := 0;
      assert chunk[i..] == chunk;
      PrefixedNoBodies(ChunkBodies(chunk, body));
      while i < |chunk|
        invariant 0 <= i <= |chunk|
        invariant ChunkBodies(chunk, body) == PrefixedBodies(sspChunk, ChunkBodies(chunk[i..], body))
      {
        ChunkBodiesStep(chunk, i, sspChunk, body);
        var edges := TripEdges(chunk[i]);
        if edges.Failure? {
          return Failure(edges.error);
        }
        var sspTrip := TripSsps(edges.value, body);
        sspChunk := sspChunk + sspTrip;
        i := i + 1;
      }
      assert chunk[i..] == [];
      assert sspChunk + [] == sspChunk;
      r := Success(sspChunk);
    }

    /**
     * The schedule stop pair payloads of one trip chunk: `each_slice(1000)`
     * over the bodies, one create_change_payloads call per slice.
     */
    method AddSspSlices(changeset: Changeset, bodies: seq<ChangeBody>)
      modifies changeset
      ensures changeset.State() == old(changeset.State()).(payloads := old(changeset.payloads) + TypedPayloads("scheduleStopPair", bodies))
    {
      var slices := Chunks(bodies, CHANGE_PAYLOAD_MAX_ENTITIES);
      ghost var all := TypedPayloads("scheduleStopPair", bodies);
      var j := 0;
      while j < |slices|
        invariant 0 <= j <= |slices|
        invariant changeset.State() == old(changeset.State()).(payloads := old(changeset.payloads) + all[..j])
      {
        OneSlice("scheduleStopPair", slices[j]);
        CreateChangePayloads(changeset, "scheduleStopPair", slices[j]);
        TakeOneMore(all, j);
        j := j + 1;
      }
      assert all[..j] == all;
    }

    /**
     * The level-2 part of create_changeset: the payloads of every trip chunk,
     * chunk by chunk. A trip without stop times stops it with TypeError,
     * leaving the payloads added so far.
     */
    method AddSspPayloads(changeset: Changeset, chunks: seq<seq<TripStopTimes>>, body: Edge -> ChangeBody) returns (failed: Option<Error>)
      modifies changeset
      ensures SspPayloads(chunks, body).Failure? ==>
                && failed == Some(SspPayloads(chunks, body).error)
                && changeset.State() == old(changeset.State()).(payloads := changeset.payloads)
      ensures SspPayloads(chunks, body).Success? ==>
                && failed.None?
                && changeset.State() == old(changeset.State()).(payloads := old(changeset.payloads) + SspPayloads(chunks, body).value)
    {
      ghost var head := changeset.payloads;
      ghost var added: seq<ChangePayload> := [];
      var i := 0;
      assert chunks[i..] == chunks;
      assert head + added == head;
      PrefixedNoPayloads(SspPayloads(chunks, body));
      while i < |chunks|
        invariant 0 <= i <= |chunks|
        invariant changeset.State() == old(changeset.State()).(payloads := head + added)
        invariant SspPayloads(chunks, body) == PrefixedPayloads(added, SspPayloads(chunks[i..], body))
      {
        SspPayloadsStep(chunks, i, added, body);
        var sspChunk := ChunkSsps(chunks[i], body);
        if sspChunk.Failure? {
          return Some(sspChunk.error);
        }
        AddSspSlices(changeset, sspChunk.value);
        ghost var more := TypedPayloads("scheduleStopPair", sspChunk.value);
        AppendAssoc(head, added, more);
        added := added + more;
        i := i + 1;
      }
      assert chunks[i..] == [];
      assert added + [] == added;
      failed := None;
    }

    /**
     * The payloads create_changeset adds to a changeset: operators, then from
     * level 1 stops and routes, then at level 2 the schedule stop pairs.
     */
    method AddImportPayloads(changeset: Changeset, ops: seq<nat>, level: int, chunks: seq<seq<TripStopTimes>>,
                             body: Edge -> ChangeBody) returns (failed: Option<Error>)
      requires Valid()
      requires forall k :: 0 <= k < |ops| ==> ops[k] < |operators|
      modifies changeset
      ensures match ChangesetPayloads(ops, level, chunks, body)
              case Failure(e) =>
                failed == Some(e) && changeset.State() == old(changeset.State()).(payloads := changeset.payloads)
              case Success(ps) =>
                failed.None? && changeset.State() == old(changeset.State()).(payloads := old(changeset.payloads) + ps)
    {
      var rs := OperatorRoutes(ops);
      var ss := ServedStops(rs);
      ghost var head := changeset.payloads;
      ghost var opPayloads := TypedPayloads("operator", OperatorBodies(ops));
      ghost var mid: seq<ChangePayload> := [];
      CreateChangePayloads(changeset, "operator", OperatorBodies(ops));
      if level >= 1 {
        ghost var stopPayloads := TypedPayloads("stop", StopBodies(ss));
        ghost var routePayloads := TypedPayloads("route", RouteBodies(rs));
        CreateChangePayloads(changeset, "stop", StopBodies(ss));
        CreateChangePayloads(changeset, "route", RouteBodies(rs));
        mid := stopPayloads + routePayloads;
        AppendAssoc(head + opPayloads, stopPayloads, routePayloads);
      } else {
        assert opPayloads + mid == opPayloads;
      }
      AppendAssoc(head, opPayloads, mid);
      failed := None;
      if level >= 2 {
        failed := AddSspPayloads(changeset, chunks, body);
        if failed.None? {
          AppendAssoc(head, opPayloads + mid, SspPayloads(chunks, body).value);
        }
      }
    }

    /**
     * create_changeset: checks its arguments before creating anything, then
     * creates a changeset, adds the payloads the import level asks for, and
     * applies it. A trip without stop times raises TypeError before the
     * changeset is applied. What it returns on success is the value of its
     * last log call, which carries nothing; apply!'s own result is dropped.
     */
    method CreateChangeset(ops: seq<nat>, level: int, chunks: seq<seq<TripStopTimes>>, body: Edge -> ChangeBody,
                           changesetId: nat, entities: Datastore, store: IssueStore, eng: Engine, now: int)
      returns (r: Result<(), Error>, changeset: Changeset?)
      requires Valid() && store.Valid()
      requires forall k :: 0 <= k < |ops| ==> ops[k] < |operators|
      modifies entities, store
      ensures store.Valid()
      ensures ops == [] ==> r == Failure(ArgumentError(NoOperators)) && changeset == null
      ensures ops != [] && !(0 <= level <= 2) ==>
                r == Failure(ArgumentError(BadImportLevel)) && changeset == null
      ensures changeset == null ==> unchanged(entities, store)
      ensures ops != [] && 0 <= level <= 2 ==>
                && changeset != null && fresh(changeset)
                && match ChangesetPayloads(ops, level, chunks, body)
                   case Failure(e) =>
                     r == Failure(e) && !changeset.applied && unchanged(entities, store)
                   case Success(ps) =>
                     var o := ApplySpec(ChangesetState(changesetId, false, None, ps, None, None),
                                        old(WorldOf(entities, store)), eng, now);
                     && r == Reported(o.result)
                     && changeset.State() == o.changeset && WorldOf(entities, store) == o.world
    {
      changeset := null;
      if ops == [] {
        return Failure(ArgumentError(NoOperators)), null;
      }
      if !(0 <= level <= 2) {
        return Failure(ArgumentError(BadImportLevel)), null;
      }
      changeset := new Changeset(changesetId, None, None);
      r := ImportAndApply(changeset, ops, level, chunks, body, entities, store, eng, now);
    }

    /** The payloads of create_changeset added to a new changeset, which is then applied. */
    method ImportAndApply(changeset: Changeset, ops: seq<nat>, level: int, chunks: seq<seq<TripStopTimes>>,
                          body: Edge -> ChangeBody, entities: Datastore, store: IssueStore, eng: Engine, now: int)
      returns (r: Result<(), Error>)
      requires Valid() && store.Valid()
      requires forall k :: 0 <= k < |ops| ==> ops[k] < |operators|
      requires changeset.State() == ChangesetState(changeset.id, false, None, [], None, None)
      modifies changeset, entities, store
      ensures store.Valid()
      ensures match ChangesetPayloads(ops, level, chunks, body)
              case Failure(e) =>
                r == Failure(e) && !changeset.applied && unchanged(entities, store)
              case Success(ps) =>
                var o := ApplySpec(ChangesetState(changeset.id, false, None, ps, None, None),
                                   old(WorldOf(entities, store)), eng, now);
                && r == Reported(o.result)
                && changeset.State() == o.changeset && WorldOf(entities, store) == o.world
    {
      var failed := AddImportPayloads(changeset, ops, level, chunks, body);
      if failed.Some? {
        return Failure(failed.value);
      }
      ghost var ps := ChangesetPayloads(ops, level, chunks, body).value;
      assert changeset.State() == ChangesetState(changeset.id, false, None, ps, None, None);
      assert WorldOf(entities, store) == old(WorldOf(entities, store));
      var applied := changeset.Apply(entities, store, eng, now);
      r := Reported(applied);
    }
  }

  /** What create_changeset reports of an apply: whether it raised, and what. */
  function Reported(applied: Result<(bool, seq<Issue>), Error>): (r: Result<(), Error>)
    ensures r.Success? <==> applied.Success?
    ensures r.Failure? ==> r.error == applied.error
  {
    match applied
    case Success(_) => Success(())
    case Failure(e) => Failure(e)
  }

  /** Adding nothing before a result leaves it as it is. */
  lemma PrefixedNoBodies(rest: Result<seq<ChangeBody>, Error>)
    ensures PrefixedBodies([], rest) == rest
  {
    match rest {
      case Failure(_) =>
      case Success(bs) => assert [] + bs == bs;
    }
  }

  lemma PrefixedNoPayloads(rest: Result<seq<ChangePayload>, Error>)
    ensures PrefixedPayloads([], rest) == rest
  {
    match rest {
      case Failure(_) =>
      case Success(ps) => assert [] + ps == ps;
    }
  }

  /** One more trip of a chunk: it fails the chunk, or its edges' bodies join the done part. */
  lemma ChunkBodiesStep(chunk: seq<TripStopTimes>, i: nat, done: seq<ChangeBody>, body: Edge -> ChangeBody)
    requires i < |chunk|
    ensures TripEdges(chunk[i]).Failure? ==>
              PrefixedBodies(done, ChunkBodies(chunk[i..], body)) == Failure(TripEdges(chunk[i]).error)
    ensures TripEdges(chunk[i]).Success? ==>
              PrefixedBodies(done, ChunkBodies(chunk[i..], body))
              == PrefixedBodies(done + MapEdges(TripEdges(chunk[i]).value, body), ChunkBodies(chunk[i + 1..], body))
  {
    assert chunk[i..][0] == chunk[i] && chunk[i..][1..] == chunk[i + 1..];
    if TripEdges(chunk[i]).Success? {
      var bs := MapEdges(TripEdges(chunk[i]).value, body);
      match ChunkBodies(chunk[i + 1..], body) {
        case Failure(_) =>
        case Success(rest) => assert done + (bs + rest) == (done + bs) + rest;
      }
    }
  }

  /** One more trip chunk: it fails, or its payloads join the done part. */
  lemma SspPayloadsStep(chunks: seq<seq<TripStopTimes>>, i: nat, done: seq<ChangePayload>, body: Edge -> ChangeBody)
    requires i < |chunks|
    ensures ChunkBodies(chunks[i], body).Failure? ==>
              PrefixedPayloads(done, SspPayloads(chunks[i..], body)) == Failure(ChunkBodies(chunks[i], body).error)
    ensures ChunkBodies(chunks[i], body).Success? ==>
              PrefixedPayloads(done, SspPayloads(chunks[i..], body))
              == PrefixedPayloads(done + TypedPayloads("scheduleStopPair", ChunkBodies(chunks[i], body).value),
                                  SspPayloads(chunks[i + 1..], body))
  {
    assert chunks[i..][0] == chunks[i] && chunks[i..][1..] == chunks[i + 1..];
    if ChunkBodies(chunks[i], body).Success? {
      var ps := TypedPayloads("scheduleStopPair", ChunkBodies(chunks[i], body).value);
      match SspPayloads(chunks[i + 1..], body) {
        case Failure(_) =>
        case Success(rest) => assert done + (ps + rest) == (done + ps) + rest;
      }
    }
  }

  /** The payloads already added, followed by a result still to come. */
  function PrefixedPayloads(done: seq<ChangePayload>, rest: Result<seq<ChangePayload>, Error>): Result<seq<ChangePayload>, Error> {
    match rest
    case Failure(e) => Failure(e)
    case Success(ps) => Success(done + ps)
  }

  function PrefixedBodies(done: seq<ChangeBody>, rest: Result<seq<ChangeBody>, Error>): Result<seq<ChangeBody>, Error> {
    match rest
    case Failure(e) => Failure(e)
    case Success(bs) => Success(done + bs)
  }
}
