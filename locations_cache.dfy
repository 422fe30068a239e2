/**
 * The client-side location queries: the filter object built from the user's
 * filter list, and the transforms applied to cached location lists (merge by
 * id, meter replacement, removal, the debounced cache upsert) together with the
 * module-wide backup that lets local edits be discarded.
 */
module LocationsCache {
  import opened Wrappers
  import opened JsText
  import opened JsValues

  // ---------------------------------------------------------------- filters

  /** The connection kinds a location filter follows. */
  datatype ConnectionType = WaterOutFlow | OilOutFlow | GasOutFlow

  /** One connection filter: `endLocationId` is `Number(value)`, `None` for NaN. */
  datatype ConnectionFilter = ConnectionFilter(endLocationId: Option<int>, maxDistance: int, kind: ConnectionType)

  /** `createConnectionsFilter({distance, value})`: one filter per connection kind, water, oil, gas. */
  function ConnectionsFilter(distance: int, value: string): (r: seq<ConnectionFilter>)
    ensures |r| == 3
    ensures forall i :: 0 <= i < 3 ==> r[i].endLocationId == NumberOf(value) && r[i].maxDistance == distance
    ensures r[0].kind == WaterOutFlow && r[1].kind == OilOutFlow && r[2].kind == GasOutFlow
  {
    var id := NumberOf(value);
    [ConnectionFilter(id, distance, WaterOutFlow), ConnectionFilter(id, distance, OilOutFlow),
     ConnectionFilter(id, distance, GasOutFlow)]
  }

  /** An entry of the user's filter list. */
  datatype FilterEntry = FilterEntry(metaName: string, value: string)

  /** A meta filter's value: a text, or the `["%%", value]` pair used for tags. */
  datatype MetaValue = Text(text: string) | TextList(items: seq<string>)

  datatype MetaEntry = MetaEntry(metaName: string, value: MetaValue)

  /**
   * The filter object: `locationsMeta` and `connections` when present, and
   * the other keys of the additional filters.
   */
  datatype LocationFilters = LocationFilters(
    locationsMeta: Option<seq<MetaEntry>>,
    connections: Option<seq<ConnectionFilter>>,
    rest: map<string, JsValue>)

  /**
   * How far a filter name reaches through connections: receipt points 1,
   * facility names 2, the configured extra location types 5; `None` for a
   * plain meta name. The names are tested in that order.
   */
  function ConnectionDistance(metaName: string, extraLocationTypes: seq<string>): (d: Option<int>)
    ensures d.Some? <==> metaName == "ReceiptPoint" || metaName == "FacilityName" || metaName in extraLocationTypes
    ensures metaName == "ReceiptPoint" ==> d == Some(1)
    ensures metaName == "FacilityName" ==> d == Some(2)
    ensures metaName != "ReceiptPoint" && metaName != "FacilityName" && metaName in extraLocationTypes ==> d == Some(5)
  {
    if metaName == "ReceiptPoint" then Some(1)
    else if metaName == "FacilityName" then Some(2)
    else if metaName in extraLocationTypes then Some(5)
    else None
  }

  /** A plain filter entry as a meta filter: tags are matched as a list, every other value as itself. */
  function MetaOf(e: FilterEntry): (m: MetaEntry)
    ensures m.metaName == e.metaName
    ensures e.metaName == "Tags" <==> m.value.TextList?
    ensures m.value.TextList? ==> m.value.items == ["%%", e.value]
    ensures m.value.Text? ==> m.value.text == e.value
  {
    MetaEntry(e.metaName, if e.metaName != "Tags" then Text(e.value) else TextList(["%%", e.value]))
  }

  /** The meta filters the list contributes, in list order. */
  function BaseMeta(filtersList: seq<FilterEntry>, extraLocationTypes: seq<string>): (r: seq<MetaEntry>)
    ensures |r| <= |filtersList|
  {
    if |filtersList| == 0 then []
    else
      var e := filtersList[|filtersList| - 1];
      BaseMeta(filtersList[..|filtersList| - 1], extraLocationTypes)
      + (if ConnectionDistance(e.metaName, extraLocationTypes).None? then [MetaOf(e)] else [])
  }

  /** The connection filters the list contributes, three per connection entry, in list order. */
  function BaseConnections(filtersList: seq<FilterEntry>, extraLocationTypes: seq<string>): seq<ConnectionFilter>
  {
    if |filtersList| == 0 then []
    else
      var e := filtersList[|filtersList| - 1];
      var d := ConnectionDistance(e.metaName, extraLocationTypes);
      BaseConnections(filtersList[..|filtersList| - 1], extraLocationTypes)
      + (if d.Some? then ConnectionsFilter(d.value, e.value) else [])
  }

  /** `additional?.length ? base.concat(additional) : base`. */
  function Concat<T>(base: seq<T>, additional: Option<seq<T>>): (r: seq<T>)
    ensures additional.Some? ==> r == base + additional.value
    ensures additional.None? ==> r == base
  {
    if additional.Some? && |additional.value| > 0 then base + additional.value else base
  }

  /** `...(xs.length > 0 && { key: xs })`: the key is present exactly when the list is not empty. */
  function NonEmpty<T>(xs: seq<T>): (r: Option<seq<T>>)
    ensures r.Some? <==> |xs| > 0
    ensures r.Some? ==> r.value == xs
  {
    if |xs| > 0 then Some(xs) else None
  }

  /** The object `createLocationMetaFilters` returns. */
  function MetaFilters(filtersList: seq<FilterEntry>, extraLocationTypes: seq<string>,
                       additional: LocationFilters): (r: LocationFilters)
    ensures var meta := BaseMeta(filtersList, extraLocationTypes);
      r.locationsMeta.Some? <==> |meta| > 0 || (additional.locationsMeta.Some? && |additional.locationsMeta.value| > 0)
    ensures var conns := BaseConnections(filtersList, extraLocationTypes);
      r.connections.Some? <==> |conns| > 0 || (additional.connections.Some? && |additional.connections.value| > 0)
    ensures r.locationsMeta.Some? ==>
      r.locationsMeta.value == BaseMeta(filtersList, extraLocationTypes) + additional.locationsMeta.GetOr([])
    ensures r.connections.Some? ==>
      r.connections.value == BaseConnections(filtersList, extraLocationTypes) + additional.connections.GetOr([])
    ensures r.rest == additional.rest
  {
    LocationFilters(
      NonEmpty(Concat(BaseMeta(filtersList, extraLocationTypes), additional.locationsMeta)),
      NonEmpty(Concat(BaseConnections(filtersList, extraLocationTypes), additional.connections)),
      additional.rest)
  }

  /** `createLocationMetaFilters`: one pass over the filter list, then the additional filters merged in. */
  method CreateLocationMetaFilters(filtersList: seq<FilterEntry>, extraLocationTypes: seq<string>,
                                   additional: LocationFilters) returns (r: LocationFilters)
    ensures r == MetaFilters(filtersList, extraLocationTypes, additional)
  {
    var baseLocationsMeta: seq<MetaEntry> := [];
    var baseConnections: seq<ConnectionFilter> := [];
    var i := 0;
    while i < |filtersList|
      invariant 0 <= i <= |filtersList|
      invariant baseLocationsMeta == BaseMeta(filtersList[..i], extraLocationTypes)
      invariant baseConnections == BaseConnections(filtersList[..i], extraLocationTypes)
    {
      var e := filtersList[i];
      assert filtersList[..i + 1][..i] == filtersList[..i];
      if e.metaName == "ReceiptPoint" {
        baseConnections := baseConnections + ConnectionsFilter(1, e.value);
      } else if e.metaName == "FacilityName" {
        baseConnections := baseConnections + ConnectionsFilter(2, e.value);
      } else if e.metaName in extraLocationTypes {
        baseConnections := baseConnections + ConnectionsFilter(5, e.value);
      } else {
        baseLocationsMeta := baseLocationsMeta + [MetaOf(e)];
      }
      i := i + 1;
    }
    assert filtersList[..i] == filtersList;
    var locationsMeta := Concat(baseLocationsMeta, additional.locationsMeta);
    var connections := Concat(baseConnections, additional.connections);
    r := LocationFilters(NonEmpty(locationsMeta), NonEmpty(connections), additional.rest);
  }

  /** How many entries of the list are connection entries. */
  function ConnectionEntries(filtersList: seq<FilterEntry>, extraLocationTypes: seq<string>): (n: nat)
    ensures n <= |filtersList|
  {
    if |filtersList| == 0 then 0
    else
      var e := filtersList[|filtersList| - 1];
      ConnectionEntries(filtersList[..|filtersList| - 1], extraLocationTypes)
      + (if ConnectionDistance(e.metaName, extraLocationTypes).Some? then 1 else 0)
  }

  /** Every entry goes one way: three connection filters, or one meta filter, never both. */
  lemma {:induction false} EntriesSplit(filtersList: seq<FilterEntry>, extraLocationTypes: seq<string>)
    ensures |BaseConnections(filtersList, extraLocationTypes)| == 3 * ConnectionEntries(filtersList, extraLocationTypes)
    ensures |BaseMeta(filtersList, extraLocationTypes)| + ConnectionEntries(filtersList, extraLocationTypes) == |filtersList|
  {
    if |filtersList| > 0 {
      EntriesSplit(filtersList[..|filtersList| - 1], extraLocationTypes);
    }
  }

  /** The meta filters are those of the plain entries: never a connection name, tags always wrapped. */
  lemma {:induction false} MetaEntriesArePlain(filtersList: seq<FilterEntry>, extraLocationTypes: seq<string>)
    ensures forall k :: 0 <= k < |BaseMeta(filtersList, extraLocationTypes)| ==>
      var m := BaseMeta(filtersList, extraLocationTypes)[k];
      ConnectionDistance(m.metaName, extraLocationTypes).None?
      && (m.metaName == "Tags" ==> m.value.TextList? && |m.value.items| == 2 && m.value.items[0] == "%%")
      && exists j :: 0 <= j < |filtersList| && m == MetaOf(filtersList[j])
  {
    if |filtersList| > 0 {
      var init := filtersList[..|filtersList| - 1];
      MetaEntriesArePlain(init, extraLocationTypes);
      var meta := BaseMeta(filtersList, extraLocationTypes);
      forall k | 0 <= k < |meta|
        ensures exists j :: 0 <= j < |filtersList| && meta[k] == MetaOf(filtersList[j])
      {
        if k < |BaseMeta(init, extraLocationTypes)| {
          var j :| 0 <= j < |init| && meta[k] == MetaOf(init[j]);
          assert filtersList[j] == init[j];
        } else {
          assert meta[k] == MetaOf(filtersList[|filtersList| - 1]);
        }
      }
    }
  }

  /** The meta filters of two lists joined are those of each, in order. */
  lemma {:induction false} BaseMetaAppend(a: seq<FilterEntry>, b: seq<FilterEntry>, extraLocationTypes: seq<string>)
    ensures BaseMeta(a + b, extraLocationTypes) == BaseMeta(a, extraLocationTypes) + BaseMeta(b, extraLocationTypes)
    decreases |b|
  {
    if |b| == 0 {
      assert a + b == a;
    } else {
      var ab := a + b;
      assert ab[..|ab| - 1] == a + b[..|b| - 1];
      assert ab[|ab| - 1] == b[|b| - 1];
      BaseMetaAppend(a, b[..|b| - 1], extraLocationTypes);
    }
  }

  /** The connection filters of two lists joined are those of each, in order. */
  lemma {:induction false} BaseConnectionsAppend(a: seq<FilterEntry>, b: seq<FilterEntry>, extraLocationTypes: seq<string>)
    ensures BaseConnections(a + b, extraLocationTypes)
            == BaseConnections(a, extraLocationTypes) + BaseConnections(b, extraLocationTypes)
    decreases |b|
  {
    if |b| == 0 {
      assert a + b == a;
    } else {
      var ab := a + b;
      assert ab[..|ab| - 1] == a + b[..|b| - 1];
      assert ab[|ab| - 1] == b[|b| - 1];
      BaseConnectionsAppend(a, b[..|b| - 1], extraLocationTypes);
    }
  }

  /** A receipt point filters by connections within one hop of the location `Number(value)`, and adds no meta key. */
  lemma ReceiptPointFilter(value: string, rest: map<string, JsValue>)
    ensures var r := MetaFilters([FilterEntry("ReceiptPoint", value)], [], LocationFilters(None, None, rest));
      r.locationsMeta.None? && r.connections == Some(ConnectionsFilter(1, value)) && r.rest == rest
  {
    var fl := [FilterEntry("ReceiptPoint", value)];
    assert fl[..0] == [];
    assert BaseMeta(fl, []) == [];
    assert BaseConnections(fl, []) == ConnectionsFilter(1, value);
  }

  /** A tag filter becomes a single meta entry matching the tag as a list, and no connection key. */
  lemma TagFilter(value: string, extraLocationTypes: seq<string>)
    requires "Tags" !in extraLocationTypes
    ensures var r := MetaFilters([FilterEntry("Tags", value)], extraLocationTypes, LocationFilters(None, None, map[]));
      r.locationsMeta == Some([MetaEntry("Tags", TextList(["%%", value]))]) && r.connections.None?
  {
    var fl := [FilterEntry("Tags", value)];
    assert fl[..0] == [];
    assert BaseMeta(fl, extraLocationTypes) == [MetaOf(fl[0])];
    assert BaseConnections(fl, extraLocationTypes) == [];
  }

  // ---------------------------------------------------------------- cached locations

  /** A location id as the API hands it over: compared with `===`, so 7 and "7" differ. */
  datatype LocationId = NumberId(n: int) | TextId(t: string)

  /** `Number(location.id)`. */
  function IdNumber(id: LocationId): (r: Option<int>)
    ensures id.NumberId? ==> r == Some(id.n)
  {
    match id
    case NumberId(n) => Some(n)
    case TextId(t) => NumberOf(t)
  }

  /** A cached location: its id and the rest of its record. */
  datatype Location = Location(id: LocationId, fields: map<string, JsValue>)

  /** `updatedLocations.find(u => u.id === id)`. */
  function FindById(updated: seq<Location>, id: LocationId): (r: Option<Location>)
    ensures r.Some? ==> r.value in updated && r.value.id == id
    ensures r.Some? <==> exists j :: 0 <= j < |updated| && updated[j].id == id
  {
    if |updated| == 0 then None
    else if updated[0].id == id then Some(updated[0])
    else FindById(updated[1..], id)
  }

  /** The location found is the first one with the id. */
  lemma {:induction false} FindByIdFirst(updated: seq<Location>, id: LocationId)
    requires FindById(updated, id).Some?
    ensures exists j :: (0 <= j < |updated| && updated[j] == FindById(updated, id).value
                         && forall k :: 0 <= k < j ==> updated[k].id != id)
  {
    if updated[0].id != id {
      FindByIdFirst(updated[1..], id);
      var j :| 0 <= j < |updated[1..]| && updated[1..][j] == FindById(updated, id).value
        && forall k :: 0 <= k < j ==> updated[1..][k].id != id;
      assert updated[j + 1] == FindById(updated, id).value;
      assert forall k :: 0 <= k < j + 1 ==> updated[k].id != id;
    } else {
      assert updated[0] == FindById(updated, id).value;
    }
  }

  /** `previous.map(l => updated.find(u => u.id === l.id) ?? l)`. */
  function MergeById(previous: seq<Location>, updated: seq<Location>): (r: seq<Location>)
    ensures |r| == |previous|
    ensures forall i :: 0 <= i < |r| ==> r[i].id == previous[i].id
    ensures forall i :: 0 <= i < |r| ==>
      r[i] == if FindById(updated, previous[i].id).Some? then FindById(updated, previous[i].id).value else previous[i]
  {
    seq(|previous|, i requires 0 <= i < |previous| => FindById(updated, previous[i].id).GetOr(previous[i]))
  }

  /** Merging keeps positions and ids: a location changes only to an updated one with its id, the first of them. */
  lemma MergeReplacesByFirstMatch(previous: seq<Location>, updated: seq<Location>, i: nat)
    requires i < |previous|
    ensures var r := MergeById(previous, updated);
      (r[i] == previous[i] && forall k :: 0 <= k < |updated| ==> updated[k].id != previous[i].id)
      || exists j :: 0 <= j < |updated| && r[i] == updated[j] && forall k :: 0 <= k < j ==> updated[k].id != previous[i].id
  {
    if FindById(updated, previous[i].id).Some? {
      FindByIdFirst(updated, previous[i].id);
    }
  }

  /** Merging the same update twice changes nothing more. */
  lemma MergeIdempotent(previous: seq<Location>, updated: seq<Location>)
    ensures MergeById(MergeById(previous, updated), updated) == MergeById(previous, updated)
  {
  }

  /** An empty update leaves the list as it was. */
  lemma MergeWithNothing(previous: seq<Location>)
    ensures MergeById(previous, []) == previous
  {
  }

  /** The locations of a list whose id is not `id`, in order. */
  function WithoutId(locations: seq<Location>, id: LocationId): (r: seq<Location>)
    ensures forall k :: 0 <= k < |r| ==> r[k].id != id
    ensures multiset(r) <= multiset(locations)
    ensures forall x :: x in locations && x.id != id ==> multiset(r)[x] == multiset(locations)[x]
    ensures IsSubsequence(r, locations)
  {
    if |locations| == 0 then []
    else
      assert locations == [locations[0]] + locations[1..];
      var rest := WithoutId(locations[1..], id);
      assert ([locations[0]] + rest)[1..] == rest;
      if locations[0].id != id then [locations[0]] + rest else rest
  }

  /** `[...previous.filter(l => l.id !== meter.id), meter]`. */
  function ReplaceMeter(previous: seq<Location>, meter: Location): (r: seq<Location>)
    ensures |r| >= 1 && r[|r| - 1] == meter
    ensures forall k :: 0 <= k < |r| - 1 ==> r[k].id != meter.id
    ensures forall x :: x in previous && x.id != meter.id ==> x in r
    ensures forall x :: x in r ==> x == meter || x in previous
    ensures IsSubsequence(r[..|r| - 1], previous)
  {
    var kept := WithoutId(previous, meter.id);
    assert forall x :: x in kept ==> x in multiset(kept);
    assert (kept + [meter])[..|kept|] == kept;
    kept + [meter]
  }

  /** After a meter update the meter's id occurs exactly once: the meter, last. */
  lemma MeterIdOnce(previous: seq<Location>, meter: Location, k: nat)
    requires k < |ReplaceMeter(previous, meter)| && ReplaceMeter(previous, meter)[k].id == meter.id
    ensures k == |ReplaceMeter(previous, meter)| - 1
  {
  }

  /** `Number(location.id) !== removedId`: a NaN id is never equal, so it is kept. */
  predicate KeptBy(l: Location, removedId: int)
  {
    IdNumber(l.id) != Some(removedId)
  }

  /** `prev?.filter(l => Number(l.id) !== removedId) ?? []`. */
  function RemoveLocation(previous: Option<seq<Location>>, removedId: int): (r: seq<Location>)
    ensures previous.None? ==> r == []
    ensures forall k :: 0 <= k < |r| ==> KeptBy(r[k], removedId)
    ensures previous.Some? ==> multiset(r) <= multiset(previous.value)
    ensures previous.Some? ==> forall x :: x in previous.value && KeptBy(x, removedId) ==>
      multiset(r)[x] == multiset(previous.value)[x]
    ensures previous.Some? ==> IsSubsequence(r, previous.value)
  {
    if previous.None? then [] else KeepAll(previous.value, removedId)
  }

  /** `locations.filter(l => Number(l.id) !== removedId)`: the kept locations, in order. */
  function KeepAll(locations: seq<Location>, removedId: int): (r: seq<Location>)
    ensures forall k :: 0 <= k < |r| ==> KeptBy(r[k], removedId)
    ensures multiset(r) <= multiset(locations)
    ensures forall x :: x in locations && KeptBy(x, removedId) ==> multiset(r)[x] == multiset(locations)[x]
    ensures IsSubsequence(r, locations)
  {
    if |locations| == 0 then []
    else
      assert locations == [locations[0]] + locations[1..];
      var rest := KeepAll(locations[1..], removedId);
      assert ([locations[0]] + rest)[1..] == rest;
      if KeptBy(locations[0], removedId) then [locations[0]] + rest else rest
  }

  /** Filtering a single location keeps it exactly when the filter keeps it. */
  lemma KeepSingle(l: Location, removedId: int)
    ensures KeepAll([l], removedId) == if KeptBy(l, removedId) then [l] else []
  {
    assert [l][1..] == [];
  }

  lemma SevenTextId()
    ensures IdNumber(TextId("7")) == Some(7)
  {
    NumberOfIntToString(7);
    assert IntToString(7) == "7";
  }

  lemma LetterTextId()
    ensures IdNumber(TextId("x")) == None
  {
    assert Trim("x") == "x" by { TrimKeeps("x"); }
    assert !SignedDigits("x");
  }

  /** A text id is removed by its number; a non-numeric text id is never removed. */
  lemma RemoveMatchesTextIds(fields: map<string, JsValue>)
    ensures RemoveLocation(Some([Location(TextId("7"), fields)]), 7) == []
    ensures RemoveLocation(Some([Location(TextId("x"), fields)]), 0) == [Location(TextId("x"), fields)]
  {
    SevenTextId();
    LetterTextId();
    KeepSingle(Location(TextId("7"), fields), 7);
    KeepSingle(Location(TextId("x"), fields), 0);
  }

  // ---------------------------------------------------------------- cache upsert

  predicate HasId(locations: seq<Location>, id: LocationId)
  {
    exists k :: 0 <= k < |locations| && locations[k].id == id
  }

  /** The cached list with every location of the new one's id replaced by it. */
  function ReplaceById(locations: seq<Location>, newLocation: Location): (r: seq<Location>)
    ensures |r| == |locations|
    ensures forall k :: 0 <= k < |r| ==> r[k] == if locations[k].id == newLocation.id then newLocation else locations[k]
  {
    seq(|locations|, k requires 0 <= k < |locations| =>
      if locations[k].id == newLocation.id then newLocation else locations[k])
  }

  /** One new location folded into a cached list: replace in place when its id is there, else append; a null one is skipped. */
  function UpsertStep(locations: seq<Location>, newLocation: Option<Location>): seq<Location>
  {
    if newLocation.None? then locations
    else if HasId(locations, newLocation.value.id) then ReplaceById(locations, newLocation.value)
    else locations + [newLocation.value]
  }

  /** All the new locations folded in, in order. */
  function UpsertAll(locations: seq<Location>, newLocations: seq<Option<Location>>): seq<Location>
  {
    if |newLocations| == 0 then locations
    else UpsertStep(UpsertAll(locations, newLocations[..|newLocations| - 1]), newLocations[|newLocations| - 1])
  }

  /** `updated.map(...)` with the `newLocationFound` flag it sets. */
  method ReplaceMatching(locations: seq<Location>, newLocation: Location) returns (r: seq<Location>, found: bool)
    ensures r == ReplaceById(locations, newLocation)
    ensures found <==> HasId(locations, newLocation.id)
  {
    r := [];
    found := false;
    var k := 0;
    while k < |locations|
      invariant 0 <= k <= |locations|
      invariant r == ReplaceById(locations[..k], newLocation)
      invariant found <==> HasId(locations[..k], newLocation.id)
    {
      assert locations[..k + 1][..k] == locations[..k];
      if locations[k].id == newLocation.id {
        found := true;
        r := r + [newLocation];
      } else {
        r := r + [locations[k]];
      }
      k := k + 1;
      assert found <==> HasId(locations[..k], newLocation.id) by {
        if HasId(locations[..k - 1], newLocation.id) {
          var j :| 0 <= j < k - 1 && locations[..k - 1][j].id == newLocation.id;
          assert locations[..k][j].id == newLocation.id;
        }
        if HasId(locations[..k], newLocation.id) {
          var j :| 0 <= j < k && locations[..k][j].id == newLocation.id;
          if j < k - 1 {
            assert locations[..k - 1][j].id == newLocation.id;
          }
        }
      }
    }
    assert locations[..k] == locations;
  }

  /** The upsert of one cache: `newLocations.forEach(...)` over a copy of the cached list. */
  method UpsertCache(cachedLocations: seq<Location>, newLocations: seq<Option<Location>>) returns (updated: seq<Location>)
    ensures updated == UpsertAll(cachedLocations, newLocations)
  {
    updated := cachedLocations;
    var i := 0;
    while i < |newLocations|
      invariant 0 <= i <= |newLocations|
      invariant updated == UpsertAll(cachedLocations, newLocations[..i])
    {
      assert newLocations[..i + 1][..i] == newLocations[..i];
      var newLocation := newLocations[i];
      if newLocation.Some? {
        var found;
        updated, found := ReplaceMatching(updated, newLocation.value);
        if !found {
          updated := updated + [newLocation.value];
        }
      }
      i := i + 1;
    }
    assert newLocations[..i] == newLocations;
  }

  /** After one step the new location is in the list, and every location with its id is it. */
  lemma UpsertStepPlaces(locations: seq<Location>, newLocation: Location)
    ensures var r := UpsertStep(locations, Some(newLocation));
      HasId(r, newLocation.id) && forall k :: 0 <= k < |r| && r[k].id == newLocation.id ==> r[k] == newLocation
  {
    var r := UpsertStep(locations, Some(newLocation));
    if HasId(locations, newLocation.id) {
      var k :| 0 <= k < |locations| && locations[k].id == newLocation.id;
      assert r[k].id == newLocation.id;
    } else {
      assert r[|r| - 1].id == newLocation.id;
    }
  }

  /** A step keeps every earlier position and the ids there, and changes only locations of its own id. */
  lemma UpsertStepKeeps(locations: seq<Location>, newLocation: Option<Location>)
    ensures var r := UpsertStep(locations, newLocation);
      |locations| <= |r| <= |locations| + 1
      && (forall k :: 0 <= k < |locations| ==> r[k].id == locations[k].id)
      && (forall k :: 0 <= k < |locations| && (newLocation.None? || locations[k].id != newLocation.value.id) ==>
            r[k] == locations[k])
      && (|r| > |locations| ==> newLocation.Some? && r[|locations|] == newLocation.value
                                && !HasId(locations, newLocation.value.id))
  {
  }

  /** Folding in the same location twice is folding it in once. */
  lemma UpsertStepIdempotent(locations: seq<Location>, newLocation: Option<Location>)
    ensures UpsertStep(UpsertStep(locations, newLocation), newLocation) == UpsertStep(locations, newLocation)
  {
    if newLocation.Some? {
      UpsertStepPlaces(locations, newLocation.value);
    }
  }

  /** Ids that were unique stay unique: a known id is replaced, only an unknown one is appended. */
  predicate UniqueIds(locations: seq<Location>)
  {
    forall i, j :: 0 <= i < j < |locations| ==> locations[i].id != locations[j].id
  }

  lemma {:induction false} UpsertKeepsUniqueIds(locations: seq<Location>, newLocations: seq<Option<Location>>)
    requires UniqueIds(locations)
    ensures UniqueIds(UpsertAll(locations, newLocations))
  {
    if |newLocations| > 0 {
      var prev := UpsertAll(locations, newLocations[..|newLocations| - 1]);
      UpsertKeepsUniqueIds(locations, newLocations[..|newLocations| - 1]);
      UpsertStepKeeps(prev, newLocations[|newLocations| - 1]);
      var r := UpsertAll(locations, newLocations);
      forall i, j | 0 <= i < j < |r| ensures r[i].id != r[j].id {
        if j == |prev| {
          assert !HasId(prev, r[j].id);
          assert prev[i].id == r[i].id;
        }
      }
    }
  }

  /** The last new location of each id is what the cache holds for that id; every earlier cached position stays. */
  lemma {:induction false} UpsertLastWins(locations: seq<Location>, newLocations: seq<Option<Location>>, j: nat)
    requires j < |newLocations| && newLocations[j].Some?
    requires forall k :: j < k < |newLocations| && newLocations[k].Some? ==> newLocations[k].value.id != newLocations[j].value.id
    ensures var r := UpsertAll(locations, newLocations);
      HasId(r, newLocations[j].value.id)
      && forall k :: 0 <= k < |r| && r[k].id == newLocations[j].value.id ==> r[k] == newLocations[j].value
    decreases |newLocations|
  {
    var n := |newLocations|;
    var init := newLocations[..n - 1];
    var prev := UpsertAll(locations, init);
    var x := newLocations[j].value;
    if j == n - 1 {
      UpsertStepPlaces(prev, x);
    } else {
      UpsertLastWins(locations, init, j);
      UpsertStepKeeps(prev, newLocations[n - 1]);
      var r := UpsertAll(locations, newLocations);
      var k0 :| 0 <= k0 < |prev| && prev[k0].id == x.id;
      assert r[k0].id == x.id;
    }
  }

  /** A cached location whose id no new location has stays where it was. */
  lemma {:induction false} UpsertKeepsOthers(locations: seq<Location>, newLocations: seq<Option<Location>>, k: nat)
    requires k < |locations|
    requires forall i :: 0 <= i < |newLocations| && newLocations[i].Some? ==> newLocations[i].value.id != locations[k].id
    ensures k < |UpsertAll(locations, newLocations)| && UpsertAll(locations, newLocations)[k] == locations[k]
  {
    if |newLocations| > 0 {
      var init := newLocations[..|newLocations| - 1];
      UpsertKeepsOthers(locations, init, k);
      UpsertStepKeeps(UpsertAll(locations, init), newLocations[|newLocations| - 1]);
    }
  }

  // ---------------------------------------------------------------- the query cache and the backup

  /**
   * The location queries of the query client, keyed by the JSON of their
   * filters (a key present with `None` is a query without data), and the
   * module-wide backup taken by the first local edit.
   */
  class LocationStore {
    var caches: map<string, Option<seq<Location>>>
    var backupLocations: seq<Location>
    var areLocationsBackedUp: bool

    constructor(caches: map<string, Option<seq<Location>>>)
      ensures Valid()
      ensures this.caches == caches && backupLocations == [] && !areLocationsBackedUp
    {
      this.caches := caches;
      backupLocations := [];
      areLocationsBackedUp := false;
    }

    /** With no backup taken, the backup list is empty. */
    predicate Valid()
      reads this
    {
      !areLocationsBackedUp ==> backupLocations == []
    }

    /** `getQueryData(key)`. */
    function Cached(key: string): Option<seq<Location>>
      reads this
    {
      if key in caches then caches[key] else None
    }

    /** `useUpdateLocationData`: the new locations appended to the cached list, when there is one. */
    method UpdateLocationData(key: string, newLocations: seq<Location>)
      modifies this
      ensures old(Cached(key)).Some? ==> caches == old(caches)[key := Some(old(Cached(key)).value + newLocations)]
      ensures old(Cached(key)).None? ==> caches == old(caches)
      ensures backupLocations == old(backupLocations) && areLocationsBackedUp == old(areLocationsBackedUp)
    {
      var previous := Cached(key);
      if previous.None? {
        return;
      }
      caches := caches[key := Some(previous.value + newLocations)];
    }

    /** `useUpdateMeterLocationData`: the meter replaces the cached locations of its id, when there is a cached list. */
    method UpdateMeterLocationData(key: string, meter: Location)
      modifies this
      ensures old(Cached(key)).Some? ==> caches == old(caches)[key := Some(ReplaceMeter(old(Cached(key)).value, meter))]
      ensures old(Cached(key)).None? ==> caches == old(caches)
      ensures backupLocations == old(backupLocations) && areLocationsBackedUp == old(areLocationsBackedUp)
    {
      var previous := Cached(key);
      if previous.None? {
        return;
      }
      caches := caches[key := Some(ReplaceMeter(previous.value, meter))];
    }

    /**
     * `useUpdateLocations`' optimistic step: merge the updated locations into
     * a cached list. It hands back the previous list, and whether the capacity
     * queries are invalidated.
     */
    method UpdateOnMutate(key: string, updatedLocations: Option<seq<Location>>, capacityInserts: nat)
      returns (previous: Option<seq<Location>>, invalidateCapacities: bool)
      modifies this
      ensures previous == old(Cached(key))
      ensures invalidateCapacities <==> previous.Some? && updatedLocations.Some? && capacityInserts > 0
      ensures previous.Some? && updatedLocations.Some? ==>
        caches == old(caches)[key := Some(MergeById(previous.value, updatedLocations.value))]
      ensures previous.None? || updatedLocations.None? ==> caches == old(caches)
      ensures backupLocations == old(backupLocations) && areLocationsBackedUp == old(areLocationsBackedUp)
    {
      previous := Cached(key);
      invalidateCapacities := false;
      if previous.None? {
        return;
      }
      if updatedLocations.Some? {
        invalidateCapacities := capacityInserts > 0;
        caches := caches[key := Some(MergeById(previous.value, updatedLocations.value))];
      }
    }

    /** `useUpdateLocations`' rollback: the previous list is written back when there was one. */
    method UpdateOnError(key: string, previous: Option<seq<Location>>)
      modifies this
      ensures previous.Some? && key in old(caches) ==> caches == old(caches)[key := previous]
      ensures previous.None? || key !in old(caches) ==> caches == old(caches)
      ensures backupLocations == old(backupLocations) && areLocationsBackedUp == old(areLocationsBackedUp)
    {
      if previous.Some? && key in caches {
        caches := caches[key := previous];
      }
    }

    /**
     * `useUpdateLocationsLocally`: the first local edit backs up the cached
     * list (or an empty one), then the edit is merged into the cached list.
     */
    method UpdateLocally(key: string, updatedLocations: seq<Location>, capacityInserts: nat)
      returns (invalidateCapacities: bool)
      requires Valid()
      modifies this
      ensures Valid()
      ensures old(areLocationsBackedUp) ==> backupLocations == old(backupLocations)
      ensures !old(areLocationsBackedUp) ==> backupLocations == old(Cached(key)).GetOr([])
      ensures areLocationsBackedUp
      ensures old(Cached(key)).Some? ==>
        caches == old(caches)[key := Some(MergeById(old(Cached(key)).value, updatedLocations))]
      ensures old(Cached(key)).None? ==> caches == old(caches)
      ensures invalidateCapacities <==> old(Cached(key)).Some? && capacityInserts > 0
    {
      var previousLocations := Cached(key);
      if !areLocationsBackedUp {
        backupLocations := previousLocations.GetOr([]);
        areLocationsBackedUp := true;
      }
      invalidateCapacities := false;
      if previousLocations.None? {
        return;
      }
      invalidateCapacities := capacityInserts > 0;
      caches := caches[key := Some(MergeById(previousLocations.value, updatedLocations))];
    }

    /** `useDiscardLocationChanges`: a backup, when there is one, is written back and then dropped. */
    method Discard(key: string)
      requires Valid()
      modifies this
      ensures Valid()
      ensures old(areLocationsBackedUp) ==> caches == old(caches)[key := Some(old(backupLocations))]
      ensures !old(areLocationsBackedUp) ==> caches == old(caches) && backupLocations == old(backupLocations)
      ensures !areLocationsBackedUp
      ensures old(areLocationsBackedUp) ==> backupLocations == []
    {
      if areLocationsBackedUp {
        caches := caches[key := Some(backupLocations)];
        areLocationsBackedUp := false;
        backupLocations := [];
      }
    }

    /** `useRemoveLocation`'s optimistic step: the cached list without the removed location, `[]` when nothing was cached. */
    method Remove(key: string, removedId: int) returns (previous: Option<seq<Location>>)
      modifies this
      ensures previous == old(Cached(key))
      ensures caches == old(caches)[key := Some(RemoveLocation(previous, removedId))]
      ensures backupLocations == old(backupLocations) && areLocationsBackedUp == old(areLocationsBackedUp)
    {
      previous := Cached(key);
      caches := caches[key := Some(RemoveLocation(previous, removedId))];
    }

    /** `getQueriesData(["locations"])`: the location queries as they are at this moment. */
    method QueriesData() returns (snapshot: map<string, Option<seq<Location>>>)
      ensures snapshot == caches
    {
      snapshot := caches;
    }

    /**
     * `useUpdateLocations`' success step, after the fetch. `snapshot` is what
     * `getQueriesData` returned before the fetch was awaited, and `refetched` what
     * the fetch of the named ids returned. When the update names any location
     * (in its meta upserts or its location updates), every query that held data
     * in the snapshot is set to that data merged by id with the refetched
     * locations, whatever it holds now; the capacity queries are invalidated when
     * capacities were inserted.
     */
    method RefreshAll(snapshot: map<string, Option<seq<Location>>>, metaIds: seq<int>, updateIds: seq<int>,
                      refetched: seq<Location>, capacityInserts: nat)
      returns (invalidateCapacities: bool)
      modifies this
      ensures invalidateCapacities <==> |metaIds| + |updateIds| > 0 && capacityInserts > 0
      ensures caches.Keys == old(caches).Keys
      ensures |metaIds| + |updateIds| == 0 ==> caches == old(caches)
      ensures |metaIds| + |updateIds| > 0 ==> forall k :: k in caches ==>
        caches[k] == if k in snapshot && snapshot[k].Some? then Some(MergeById(snapshot[k].value, refetched)) else old(caches)[k]
      ensures backupLocations == old(backupLocations) && areLocationsBackedUp == old(areLocationsBackedUp)
    {
      invalidateCapacities := false;
      if |metaIds| + |updateIds| == 0 {
        return;
      }
      invalidateCapacities := capacityInserts > 0;
      var remaining := snapshot.Keys;
      while remaining != {}
        invariant remaining <= snapshot.Keys && caches.Keys == old(caches).Keys
        invariant forall k :: k in caches ==>
          caches[k] == if k in snapshot && k !in remaining && snapshot[k].Some?
                       then Some(MergeById(snapshot[k].value, refetched)) else old(caches)[k]
        invariant backupLocations == old(backupLocations) && areLocationsBackedUp == old(areLocationsBackedUp)
        decreases remaining
      {
        var key :| key in remaining;
        var previousLocations := snapshot[key];
        if previousLocations.Some? && key in caches {
          caches := caches[key := Some(MergeById(previousLocations.value, refetched))];
        }
        remaining := remaining - {key};
      }
    }
  }

  /** Any number of local edits followed by a discard give back the list cached before the first edit. */
  method EditsThenDiscard(store: LocationStore, key: string, edits: seq<seq<Location>>)
    requires store.Valid() && !store.areLocationsBackedUp && store.Cached(key).Some?
    modifies store
    ensures store.Valid()
    ensures store.Cached(key) == old(store.Cached(key))
    ensures !store.areLocationsBackedUp && store.backupLocations == []
  {
    var i := 0;
    while i < |edits|
      invariant 0 <= i <= |edits|
      invariant store.Valid()
      invariant i > 0 ==> store.areLocationsBackedUp && store.backupLocations == old(store.Cached(key)).value
      invariant i == 0 ==> !store.areLocationsBackedUp && store.Cached(key) == old(store.Cached(key))
      invariant store.Cached(key).Some?
    {
      var _ := store.UpdateLocally(key, edits[i], 0);
      i := i + 1;
    }
    store.Discard(key);
  }

  /** A local edit of a query with no data, then discarded, leaves the query holding an empty list. */
  method DiscardWithoutCache(store: LocationStore, key: string, edit: seq<Location>)
    requires store.Valid() && !store.areLocationsBackedUp && store.Cached(key).None?
    modifies store
    ensures store.Cached(key) == Some([])
  {
    var _ := store.UpdateLocally(key, edit, 0);
    store.Discard(key);
  }

  /** The optimistic update rolled back restores the cached list. */
  method UpdateThenRollBack(store: LocationStore, key: string, updatedLocations: seq<Location>)
    modifies store
    ensures store.Cached(key) == old(store.Cached(key))
  {
    var previous, _ := store.UpdateOnMutate(key, Some(updatedLocations), 0);
    store.UpdateOnError(key, previous);
  }

  /**
   * `useUpdateLocationsCache`: ids requested since the last flush, and the
   * flush that folds the fetched locations into every location query.
   */
  class LocationsCacheUpdater {
    var locationIdsSet: set<int>

    constructor()
      ensures locationIdsSet == {}
    {
      locationIdsSet := {};
    }

    /** The returned callback: the ids join the pending set (the debounced flush is not modelled as timing). */
    method Request(locationIds: seq<int>)
      modifies this
      ensures locationIdsSet == old(locationIdsSet) + set i | 0 <= i < |locationIds| :: locationIds[i]
    {
      var k := 0;
      while k < |locationIds|
        invariant 0 <= k <= |locationIds|
        invariant locationIdsSet == old(locationIdsSet) + set i | 0 <= i < k :: locationIds[i]
      {
        locationIdsSet := locationIdsSet + {locationIds[k]};
        k := k + 1;
        assert (set i | 0 <= i < k :: locationIds[i]) == (set i | 0 <= i < k - 1 :: locationIds[i]) + {locationIds[k - 1]};
      }
    }

    /**
     * The debounced body up to its `await`: the location queries as they are
     * now, and the pending ids, which are what gets fetched.
     */
    method StartFlush(store: LocationStore) returns (snapshot: map<string, Option<seq<Location>>>, ids: set<int>)
      ensures snapshot == store.caches && ids == locationIdsSet
    {
      snapshot := store.caches;
      ids := locationIdsSet;
    }

    /**
     * The debounced body after the fetch: `snapshot` is what `StartFlush` read and
     * `newLocations` what the fetch returned. Every query of the snapshot is set
     * to its snapshot list (or `[]`) with them folded in, whatever it holds now,
     * and the pending set is cleared, ids requested during the fetch included.
     */
    method Flush(store: LocationStore, snapshot: map<string, Option<seq<Location>>>, newLocations: seq<Option<Location>>)
      modifies this, store
      ensures locationIdsSet == {}
      ensures store.caches.Keys == old(store.caches).Keys
      ensures forall k :: k in store.caches ==>
        store.caches[k] == if k in snapshot then Some(UpsertAll(snapshot[k].GetOr([]), newLocations)) else old(store.caches)[k]
      ensures store.backupLocations == old(store.backupLocations)
      ensures store.areLocationsBackedUp == old(store.areLocationsBackedUp)
    {
      var remaining := snapshot.Keys;
      while remaining != {}
        invariant remaining <= snapshot.Keys && store.caches.Keys == old(store.caches).Keys
        invariant forall k :: k in store.caches ==>
          store.caches[k] == if k in snapshot && k !in remaining
                             then Some(UpsertAll(snapshot[k].GetOr([]), newLocations)) else old(store.caches)[k]
        invariant store.backupLocations == old(store.backupLocations)
        invariant store.areLocationsBackedUp == old(store.areLocationsBackedUp)
        decreases remaining
      {
        var key :| key in remaining;
        if key in store.caches {
          var updated := UpsertCache(snapshot[key].GetOr([]), newLocations);
          store.caches := store.caches[key := Some(updated)];
        }
        remaining := remaining - {key};
      }
      locationIdsSet := {};
    }
  }

  /** With nothing happening during the fetch, a flush folds the fetched locations into every query. */
  method FlushUninterrupted(updater: LocationsCacheUpdater, store: LocationStore, newLocations: seq<Option<Location>>)
    returns (fetched: set<int>)
    modifies updater, store
    ensures fetched == old(updater.locationIdsSet) && updater.locationIdsSet == {}
    ensures store.caches.Keys == old(store.caches).Keys
    ensures forall k :: k in store.caches ==> store.caches[k] == Some(UpsertAll(old(store.caches)[k].GetOr([]), newLocations))
  {
    var snapshot;
    snapshot, fetched := updater.StartFlush(store);
    updater.Flush(store, snapshot, newLocations);
  }

  /** An id requested while the fetch is under way is cleared at the end without having been fetched. */
  method RequestDuringFlushIsDropped(updater: LocationsCacheUpdater, store: LocationStore, id: int,
                                     newLocations: seq<Option<Location>>)
    returns (fetched: set<int>)
    requires id !in updater.locationIdsSet
    modifies updater, store
    ensures id !in fetched && id !in updater.locationIdsSet
  {
    var snapshot;
    snapshot, fetched := updater.StartFlush(store);
    updater.Request([id]);
    updater.Flush(store, snapshot, newLocations);
  }

  /** Locations appended to a query while the flush's fetch is under way are overwritten by the flush. */
  method WriteDuringFlushIsLost(updater: LocationsCacheUpdater, store: LocationStore, key: string,
                                appended: seq<Location>, newLocations: seq<Option<Location>>)
    requires key in store.caches
    modifies updater, store
    ensures store.Cached(key) == Some(UpsertAll(old(store.Cached(key)).GetOr([]), newLocations))
  {
    var snapshot, _ := updater.StartFlush(store);
    store.UpdateLocationData(key, appended);
    updater.Flush(store, snapshot, newLocations);
  }

  /** Likewise, an edit made while the refresh's fetch is under way is overwritten by the refresh. */
  method WriteDuringRefreshIsLost(store: LocationStore, key: string, appended: seq<Location>,
                                  metaIds: seq<int>, updateIds: seq<int>, refetched: seq<Location>)
    requires key in store.caches && store.caches[key].Some? && |metaIds| > 0
    modifies store
    ensures store.Cached(key) == Some(MergeById(old(store.Cached(key)).value, refetched))
  {
    var snapshot := store.QueriesData();
    store.UpdateLocationData(key, appended);
    var _ := store.RefreshAll(snapshot, metaIds, updateIds, refetched, 0);
  }
}
