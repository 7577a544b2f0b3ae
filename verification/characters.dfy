/** A character of the facility service: the record fetched for its id,
    checked and resolved once at construction against a snapshot of the
    local database, then read through getters; and the loops that turn the
    record's related entries into ids and objects. The fetched records are
    parameters; the foreign classes are the `constructs` oracle. */
module Characters {
  import opened Wrappers
  import opened Json
  import opened Strings
  import opened Resolution
  import opened Entries

  /** Why a character cannot be built: the record has no usable `id`
      (`ValueError`), or it lacks a field read outside any handler
      (`KeyError`). */
  datatype CharacterError = NotAvailable | KeyError(key: string)

  /** The fields copied from the record. */
  datatype Identity = Identity(name: Value, entityType: Value, subType: Value)

  /** The checks of construction, in order: `data['id']` must exist and not
      be null, then `name` and `type` must exist; `subType` defaults to
      null. */
  function Validate(data: Value): (r: Result<Identity, CharacterError>)
    ensures r == Failure(NotAvailable) <==> Get(data, "id").None? || Get(data, "id") == Some(Null)
    ensures r.Success? <==>
      Get(data, "id").Some? && Get(data, "id") != Some(Null) &&
      Get(data, "name").Some? && Get(data, "type").Some?
    ensures r.Failure? && r.error != NotAvailable ==>
      r.error == KeyError(if Get(data, "name").None? then "name" else "type")
    ensures r.Success? ==>
      Get(data, "name") == Some(r.value.name) && Get(data, "type") == Some(r.value.entityType) &&
      (Get(data, "subType").Some? ==> Get(data, "subType") == Some(r.value.subType)) &&
      (Get(data, "subType").None? ==> r.value.subType == Null)
  {
    match Get(data, "id")
    case None => Failure(NotAvailable)
    case Some(Null) => Failure(NotAvailable)
    case Some(_) =>
      (match (Get(data, "name"), Get(data, "type"))
       case (None, _) => Failure(KeyError("name"))
       case (_, None) => Failure(KeyError("type"))
       case (Some(n), Some(t)) => Success(Identity(n, t, Get(data, "subType").GetOr(Null))))
  }

  /** The elements a loop walks at `path`: none when the path is missing or
      its value cannot be iterated, since the whole loop then raises before
      appending anything. */
  function Iterated(data: Value, path: seq<string>): (r: seq<Value>)
    ensures At(data, path).None? ==> r == []
    ensures At(data, path).Some? && Elements(At(data, path).value).None? ==> r == []
    ensures At(data, path).Some? && Elements(At(data, path).value).Some? ==>
      r == Elements(At(data, path).value).value
  {
    match At(data, path)
    case None => []
    case Some(v) => Elements(v).GetOr([])
  }

  class Character {
    const id: Value
    const data: Value
    const db: Database
    const name: Value
    const entityType: Value
    const subType: Value
    const docId: Option<string>
    const facilitiesData: Option<Value>
    const destination: DestinationRef
    const ancestors: Ancestors

    /** Every field is what construction resolves from the id, the record
        and the database snapshot. */
    ghost predicate Valid()
    {
      Validate(data) == Success(Identity(name, entityType, subType)) &&
      docId == Resolution.DocId(db.facilities, id, entityType) &&
      facilitiesData == Resolution.RawFacilitiesData(docId, db.sync) &&
      destination == ResolveDestination(data, db.facilities) &&
      ancestors == ResolveAncestors(data, facilitiesData)
    }

    constructor (id: Value, data: Value, db: Database)
      requires Validate(data).Success?
      ensures this.id == id && this.data == data && this.db == db
      ensures Valid()
    {
      var identity := Validate(data).value;
      var docId := Resolution.DocId(db.facilities, id, identity.entityType);
      var cached := Resolution.RawFacilitiesData(docId, db.sync);
      this.id := id;
      this.data := data;
      this.db := db;
      this.name := identity.name;
      this.entityType := identity.entityType;
      this.subType := identity.subType;
      this.docId := docId;
      this.facilitiesData := cached;
      this.destination := ResolveDestination(data, db.facilities);
      this.ancestors := ResolveAncestors(data, cached);
    }

    /** `Character(id)` given the record fetched for `id`: it fails exactly
        when `Validate` does, with the same error; otherwise every field is
        resolved and the id kept as given. */
    static method Create(id: Value, data: Value, db: Database) returns (r: Result<Character, CharacterError>)
      ensures r.Failure? <==> Validate(data).Failure?
      ensures r.Failure? ==> r.error == Validate(data).error
      ensures r.Success? ==> fresh(r.value) && r.value.Valid()
      ensures r.Success? ==> r.value.id == id && r.value.data == data && r.value.db == db
    {
      if Validate(data).Failure? {
        return Failure(Validate(data).error);
      }
      var c := new Character(id, data, db);
      return Success(c);
    }

    function Id(): (r: Value)
      ensures r == id
    {
      id
    }

    function Name(): (r: Value)
      requires Valid()
      ensures Get(data, "name") == Some(r)
    {
      name
    }

    function EntityType(): (r: Value)
      requires Valid()
      ensures Get(data, "type") == Some(r)
    {
      entityType
    }

    function SubType(): (r: Value)
      requires Valid()
      ensures Get(data, "subType").Some? ==> Get(data, "subType") == Some(r)
      ensures Get(data, "subType").None? ==> r == Null
    {
      subType
    }

    function DocId(): (r: Option<string>)
      requires Valid()
      ensures r == Resolution.DocId(db.facilities, id, entityType)
    {
      docId
    }

    function DestinationCode(): (r: Option<string>)
      requires Valid()
      ensures r == ResolveDestination(data, db.facilities).code
      ensures r.Some? ==> AncestorDestinationId().Some?
    {
      destination.code
    }

    function AncestorDestinationId(): (r: Option<string>)
      requires Valid()
      ensures r == ResolveDestination(data, db.facilities).id
      ensures r.Some? ==> ';' !in r.value
    {
      destination.id
    }

    function AncestorParkId(): (r: Option<string>)
      requires Valid()
      ensures r == FirstOf(ParkSources(data, facilitiesData))
    {
      ancestors.park
    }

    function AncestorResortId(): (r: Option<string>)
      requires Valid()
      ensures r == FirstOf(AncestorSources(data, facilitiesData, "ancestorResort", "ancestorResortId"))
    {
      ancestors.resort
    }

    function AncestorLandId(): (r: Option<string>)
      requires Valid()
      ensures r == FirstOf(AncestorSources(data, facilitiesData, "ancestorLand", "ancestorLandId"))
    {
      ancestors.land
    }

    function AncestorResortAreaId(): (r: Option<string>)
      requires Valid()
      ensures r == FirstOf(AncestorSources(data, facilitiesData, "ancestorResortArea", "ancestorResortAreaId"))
    {
      ancestors.resortArea
    }

    function AncestorEntertainmentVenueId(): (r: Option<string>)
      requires Valid()
      ensures r == FirstOf(AncestorSources(data, facilitiesData, "ancestorEntertainmentVenue", "ancestorEntertainmentVenueId"))
    {
      ancestors.entertainmentVenue
    }

    /** `data['links']`; `None` where Python raises KeyError. */
    function Links(): (r: Option<Value>)
      ensures r.Some? <==> data.Obj? && exists i :: 0 <= i < |data.members| && data.members[i].0 == "links"
      ensures r.Some? ==> Get(data, "links") == r
    {
      Get(data, "links")
    }

    /** `get_raw_facilities_data` against the database as it is now; on the
        snapshot taken at construction it is the cached record. */
    function RawFacilitiesData(current: Database): (r: Option<Value>)
      requires Valid()
      ensures r == Resolution.RawFacilitiesData(docId, current.sync)
      ensures current == db ==> r == facilitiesData
    {
      Resolution.RawFacilitiesData(docId, current.sync)
    }

    /** `check_related_locations`: whether the record has the key. */
    function HasRelatedLocations(): (r: bool)
      ensures r <==> data.Obj? && exists i :: 0 <= i < |data.members| && data.members[i].0 == "relatedLocations"
    {
      Get(data, "relatedLocations").Some?
    }

    /** `get_possible_ids`, given the listing fetched from the service: the
        link ids of its entries, skipping each malformed entry; `None` where
        reading or iterating `listing['entries']` raises. */
    method PossibleIds(listing: Value) returns (ids: Option<seq<string>>)
      ensures ids.None? <==>
        Get(listing, "entries").None? || Elements(Get(listing, "entries").value).None?
      ensures ids.Some? ==> ids.value == LinkIds(Elements(Get(listing, "entries").value).value)
    {
      var entries := Get(listing, "entries");
      if entries.None? || Elements(entries.value).None? {
        return None;
      }
      var xs := Elements(entries.value).value;
      var acc: seq<string> := [];
      var i := 0;
      assert xs[0..] == xs;
      while i < |xs|
        invariant 0 <= i <= |xs|
        invariant acc + LinkIds(xs[i..]) == LinkIds(xs)
      {
        LinkIdsAdvance(xs, i, acc);
        acc := acc + IdOf(xs[i]);
        i := i + 1;
      }
      assert xs[i..] == [];
      return Some(acc);
    }

    /** `get_related_location_ids`: the `(id, facilityType)` pairs of the
        primary locations before the first malformed one. */
    method RelatedLocationIds() returns (locs: seq<(string, Value)>)
      ensures locs == LocationIds(Iterated(data, ["relatedLocations", "primaryLocations"]))
    {
      locs := [];
      if !HasRelatedLocations() {
        assert At(data, ["relatedLocations", "primaryLocations"]).None?;
        return;
      }
      var xs := Iterated(data, ["relatedLocations", "primaryLocations"]);
      var i := 0;
      assert xs[0..] == xs;
      while i < |xs|
        invariant 0 <= i <= |xs|
        invariant locs + LocationIds(xs[i..]) == LocationIds(xs)
      {
        LocationIdsAdvance(xs, i, locs);
        var loc := LocationOf(xs[i]);
        if loc.None? {
          return;
        }
        locs := locs + [loc.value];
        i := i + 1;
      }
      assert xs[i..] == [];
    }

    /** `get_related_locations`: an Attraction or a Facility for each primary
        location tagged so, other tags skipped; a malformed entry or an
        object that cannot be built ends the walk with what was built. */
    method RelatedLocations(constructs: (Kind, string) -> bool) returns (locs: seq<Entity>)
      ensures locs == Entries.RelatedLocations(Iterated(data, ["relatedLocations", "primaryLocations"]), constructs)
    {
      locs := [];
      if !HasRelatedLocations() {
        assert At(data, ["relatedLocations", "primaryLocations"]).None?;
        return;
      }
      var xs := Iterated(data, ["relatedLocations", "primaryLocations"]);
      var i := 0;
      assert xs[0..] == xs;
      while i < |xs|
        invariant 0 <= i <= |xs|
        invariant locs + Entries.RelatedLocations(xs[i..], constructs) == Entries.RelatedLocations(xs, constructs)
      {
        RelatedLocationsAdvance(xs, i, constructs, locs);
        var loc := LocationOf(xs[i]);
        if loc.None? {
          return;
        }
        var (id, t) := loc.value;
        RelatedStepOfPair(xs[i], constructs, id, t);
        ghost var rest := Entries.RelatedLocations(xs[i + 1..], constructs);
        if t == Str("Attraction") {
          if !constructs(Attraction, id) {
            return;
          }
          locs := locs + [Entity(Attraction, id)];
        } else if t == Str("Facility") {
          if !constructs(Facility, id) {
            return;
          }
          locs := locs + [Entity(Facility, id)];
        }
        assert locs + rest == Entries.RelatedLocations(xs, constructs);
        i := i + 1;
      }
      assert xs[i..] == [];
    }

    /** `get_associated_event_ids`: the link ids of the associated events,
        each malformed entry skipped on its own. */
    method AssociatedEventIds() returns (ids: seq<string>)
      ensures ids == LinkIds(Iterated(data, ["associatedEvents"]))
    {
      var xs := Iterated(data, ["associatedEvents"]);
      ids := [];
      var i := 0;
      assert xs[0..] == xs;
      while i < |xs|
        invariant 0 <= i <= |xs|
        invariant ids + LinkIds(xs[i..]) == LinkIds(xs)
      {
        LinkIdsAdvance(xs, i, ids);
        ids := ids + IdOf(xs[i]);
        i := i + 1;
      }
      assert xs[i..] == [];
    }

    /** `get_associated_events`: an Entertainment for each associated event
        whose link can be read and whose object can be built; any other
        entry is skipped on its own. */
    method AssociatedEvents(constructs: (Kind, string) -> bool) returns (events: seq<Entity>)
      ensures events == Events(Iterated(data, ["associatedEvents"]), constructs)
    {
      var xs := Iterated(data, ["associatedEvents"]);
      events := [];
      var i := 0;
      assert xs[0..] == xs;
      while i < |xs|
        invariant 0 <= i <= |xs|
        invariant events + Events(xs[i..], constructs) == Events(xs, constructs)
      {
        EventsAdvance(xs, i, constructs, events);
        events := events + EventOf(xs[i], constructs);
        i := i + 1;
      }
      assert xs[i..] == [];
    }

    /** `__formatDate`: a field shorter than two characters gets a leading
        `'0'`. */
    static method FormatDate(num: string) returns (r: string)
      ensures r == ZeroPad(num)
    {
      r := num;
      if |num| < 2 {
        r := "0" + num;
      }
    }
  }
}
