/** A destination of the facility service: its id is checked before
    anything is fetched, its record gives a normalised display name and a
    type, and four listings give its theme parks, water parks,
    entertainments and attractions. Every failure of construction ends the
    program through one of three handlers; the listings have no handler, so
    one bad entry fails the whole call. The fetched documents are
    parameters; the foreign classes are the `constructs` oracle. */
module Destinations {
  import opened Wrappers
  import opened Json
  import opened Strings
  import opened Links
  import opened Names
  import opened Sequences
  import opened Entries

  /** The handler that ends construction: no id given (`ValueError`), an
      argument of the wrong type (`TypeError`), or any other failure. */
  datatype DestinationError = MissingId | NotAString | NotAvailable

  /** The argument check made before anything is fetched: `''` is refused,
      then anything that is neither null nor a string. */
  function CheckId(id: Value): (r: Option<DestinationError>)
    ensures r == Some(MissingId) <==> id == Str("")
    ensures r == Some(NotAString) <==> !id.Null? && !id.Str?
    ensures r.None? <==> id.Null? || (id.Str? && id.s != "")
  {
    if id == Str("") then Some(MissingId)
    else if !id.Null? && !id.Str? then Some(NotAString)
    else None
  }

  /** The fields read from the fetched record: subscripting anything but a
      dict is a `TypeError`, so it reaches the second handler; a missing
      `name` or `type`, or a `name` that is not a string, reaches the last. */
  function ReadRecord(data: Value): (r: Result<(string, Value), DestinationError>)
    ensures r == Failure(NotAString) <==> !data.Obj?
    ensures r.Success? <==>
      data.Obj? && Get(data, "name").Some? && Get(data, "name").value.Str? && Get(data, "type").Some?
    ensures r.Success? ==>
      r.value.0 == Normalize(Get(data, "name").value.s) && Get(data, "type") == Some(r.value.1)
    ensures r.Failure? ==> r.error != MissingId
  {
    if !data.Obj? then Failure(NotAString)
    else match (Get(data, "name"), Get(data, "type"))
      case (Some(Str(name)), Some(t)) => Success((Normalize(name), t))
      case _ => Failure(NotAvailable)
  }

  /** The id of a listing entry: the last path segment of its self link,
      query string included; `None` when the link is not a string. */
  function EntryId(entry: Value): (r: Option<string>)
    ensures r.Some? <==> At(entry, ["links", "self", "href"]).Some? && At(entry, ["links", "self", "href"]).value.Str?
    ensures r.Some? ==> r.value == Last(At(entry, ["links", "self", "href"]).value.s, '/')
    ensures r.Some? ==> '/' !in r.value
  {
    match At(entry, ["links", "self", "href"])
    case Some(Str(href)) => Some(Last(href, '/'))
    case _ => None
  }

  /** One listing entry turned into an object of `kind`, when it can be. */
  function EntryObject(entry: Value, kind: Kind, constructs: (Kind, string) -> bool): (r: Option<Entity>)
    ensures r.Some? <==> EntryId(entry).Some? && constructs(kind, EntryId(entry).value)
    ensures r.Some? ==> r.value == Entity(kind, EntryId(entry).value)
  {
    match EntryId(entry)
    case None => None
    case Some(id) => if constructs(kind, id) then Some(Entity(kind, id)) else None
  }

  /** The objects of a listing: one per entry, in entry order, or `None`
      when any entry has no readable link or its object cannot be built. */
  function Objects(entries: seq<Value>, kind: Kind, constructs: (Kind, string) -> bool): (r: Option<seq<Entity>>)
    ensures r.Some? <==>
      forall k :: 0 <= k < |entries| ==> EntryId(entries[k]).Some? && constructs(kind, EntryId(entries[k]).value)
    ensures r.Some? ==>
      |r.value| == |entries| &&
      forall k :: 0 <= k < |entries| ==> r.value[k] == Entity(kind, EntryId(entries[k]).value)
  {
    var f := (e: Value) => EntryObject(e, kind, constructs);
    assert forall k :: 0 <= k < |entries| ==> f(entries[k]) == EntryObject(entries[k], kind, constructs);
    All(entries, f)
  }

  /** The entries of the listing behind `data['links'][name]['href']`:
      there are entries exactly when the link is a string and the document
      fetched from it has an iterable `entries` member; `None` where Python
      raises. */
  function ListingEntries(data: Value, name: string, fetch: string -> Value): (r: Option<seq<Value>>)
    ensures r.Some? <==>
      At(data, ["links", name, "href"]).Some? && At(data, ["links", name, "href"]).value.Str? &&
      Get(fetch(At(data, ["links", name, "href"]).value.s), "entries").Some? &&
      Elements(Get(fetch(At(data, ["links", name, "href"]).value.s), "entries").value).Some?
    ensures r.Some? ==>
      r == Elements(Get(fetch(At(data, ["links", name, "href"]).value.s), "entries").value)
  {
    match At(data, ["links", name, "href"])
    case Some(Str(href)) =>
      (match Get(fetch(href), "entries")
       case Some(es) => Elements(es)
       case None => None)
    case _ => None
  }

  /** Listing ids keep a query string that the character module's link ids
      drop: an entry linking to `<prefix>/<id>?<query>` has listing id
      `<id>?<query>` and character link id `<id>`. */
  lemma QueryKept(entry: Value, prefix: string, id: string, query: string)
    requires At(entry, ["links", "self", "href"]) == Some(Str(prefix + "/" + id + "?" + query))
    requires '/' !in id && '?' !in id && '/' !in query
    ensures EntryId(entry) == Some(id + "?" + query)
    ensures SelfLinkId(entry) == Some(id)
  {
    assert prefix + "/" + id + "?" + query == prefix + ['/'] + (id + "?" + query);
    LastOfSuffix(prefix, id + "?" + query, '/');
    LinkIdWithQuery(prefix, id, query);
  }

  class Destination {
    const id: Value
    const data: Value
    const name: string
    const entityType: Value

    /** The id passed the check and the record gave the name and the type. */
    ghost predicate Valid()
    {
      CheckId(id).None? && ReadRecord(data) == Success((name, entityType))
    }

    constructor (id: Value, data: Value)
      requires CheckId(id).None? && ReadRecord(data).Success?
      ensures this.id == id && this.data == data
      ensures Valid()
    {
      this.id := id;
      this.data := data;
      this.name := ReadRecord(data).value.0;
      this.entityType := ReadRecord(data).value.1;
    }

    /** `Destination(id)` given the record fetched for `id`: the id check
        comes first and does not depend on the record; then the record is
        read. */
    static method Create(id: Value, data: Value) returns (r: Result<Destination, DestinationError>)
      ensures CheckId(id).Some? ==> r == Failure(CheckId(id).value)
      ensures CheckId(id).None? && ReadRecord(data).Failure? ==> r == Failure(ReadRecord(data).error)
      ensures r.Success? <==> CheckId(id).None? && ReadRecord(data).Success?
      ensures r.Success? ==> fresh(r.value) && r.value.Valid() && r.value.id == id && r.value.data == data
    {
      match CheckId(id) {
        case Some(e) => return Failure(e);
        case None =>
      }
      if ReadRecord(data).Failure? {
        return Failure(ReadRecord(data).error);
      }
      var d := new Destination(id, data);
      return Success(d);
    }

    /** The display name: the record's name with the eight table characters
        folded or removed and surrounding whitespace stripped. */
    function Name(): (r: string)
      requires Valid()
      ensures r == Normalize(Get(data, "name").value.s)
      ensures forall i :: 0 <= i < |r| ==> !InTable(r[i])
      ensures r == [] || (!IsSpace(r[0]) && !IsSpace(r[|r| - 1]))
    {
        name
    }

    function EntityType(): (r: Value)
      requires Valid()
      ensures Get(data, "type") == Some(r)
    {
      entityType
    }

    /** The shared loop of the four listings: build one object per entry,
        failing on the first entry that cannot be built. */
    static method Build(entries: seq<Value>, kind: Kind, constructs: (Kind, string) -> bool) returns (r: Option<seq<Entity>>)
      ensures r == Objects(entries, kind, constructs)
    {
      var f := (e: Value) => EntryObject(e, kind, constructs);
      var acc: seq<Entity> := [];
      var i := 0;
      assert entries[..0] == [];
      while i < |entries|
        invariant 0 <= i <= |entries|
        invariant All(entries[..i], f) == Some(acc)
      {
        AllAdvance(entries, i, f, acc);
        var obj := EntryObject(entries[i], kind, constructs);
        if obj.None? {
          return None;
        }
        acc := acc + [obj.value];
        i := i + 1;
      }
      assert entries[..i] == entries;
      return Some(acc);
    }

    /** The objects of the listing behind link `name`, or `None` where the
        source raises. */
    method Listing(name: string, kind: Kind, fetch: string -> Value, constructs: (Kind, string) -> bool)
      returns (r: Option<seq<Entity>>)
      ensures ListingEntries(data, name, fetch).None? ==> r.None?
      ensures ListingEntries(data, name, fetch).Some? ==>
        r == Objects(ListingEntries(data, name, fetch).value, kind, constructs)
    {
      var entries := ListingEntries(data, name, fetch);
      if entries.None? {
        return None;
      }
      r := Build(entries.value, kind, constructs);
    }

    /** `getThemeParks`: a Park per entry of the theme-park listing. */
    method ThemeParks(fetch: string -> Value, constructs: (Kind, string) -> bool) returns (r: Option<seq<Entity>>)
      ensures ListingEntries(data, "themeParks", fetch).None? ==> r.None?
      ensures ListingEntries(data, "themeParks", fetch).Some? ==>
        r == Objects(ListingEntries(data, "themeParks", fetch).value, Park, constructs)
    {
      r := Listing("themeParks", Park, fetch, constructs);
    }

    /** `getWaterParks`: a Park per entry of the water-park listing. */
    method WaterParks(fetch: string -> Value, constructs: (Kind, string) -> bool) returns (r: Option<seq<Entity>>)
      ensures ListingEntries(data, "waterParks", fetch).None? ==> r.None?
      ensures ListingEntries(data, "waterParks", fetch).Some? ==>
        r == Objects(ListingEntries(data, "waterParks", fetch).value, Park, constructs)
    {
      r := Listing("waterParks", Park, fetch, constructs);
    }

    /** `getEntertainments`: an Entertainment per entry of the listing. */
    method Entertainments(fetch: string -> Value, constructs: (Kind, string) -> bool) returns (r: Option<seq<Entity>>)
      ensures ListingEntries(data, "entertainments", fetch).None? ==> r.None?
      ensures ListingEntries(data, "entertainments", fetch).Some? ==>
        r == Objects(ListingEntries(data, "entertainments", fetch).value, Entertainment, constructs)
    {
      r := Listing("entertainments", Entertainment, fetch, constructs);
    }

    /** `getAttractions`: an Attraction per entry of the listing. */
    method Attractions(fetch: string -> Value, constructs: (Kind, string) -> bool) returns (r: Option<seq<Entity>>)
      ensures ListingEntries(data, "attractions", fetch).None? ==> r.None?
      ensures ListingEntries(data, "attractions", fetch).Some? ==>
        r == Objects(ListingEntries(data, "attractions", fetch).value, Attraction, constructs)
    {
      r := Listing("attractions", Attraction, fetch, constructs);
    }

    /** `__formatDate`: month and day padded independently. */
    static method FormatDate(month: string, day: string) returns (m: string, d: string)
      ensures m == ZeroPad(month) && d == ZeroPad(day)
    {
      m, d := month, day;
      if |month| < 2 {
        m := "0" + month;
      }
      if |day| < 2 {
        d := "0" + day;
      }
    }
  }
}
