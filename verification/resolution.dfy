/** How a character's identity and ancestor fields are resolved at
    construction: the docId search over the local facilities table, the
    cached facilities record it unlocks, the destination id and code, and
    the ordered fallback chains of the five ancestor fields. Every source
    that raises in Python is `None` here; the first source that yields a
    value wins. */
module Resolution {
  import opened Wrappers
  import opened Json
  import opened Links
  import opened Sequences

  /** A row of the local `facilities` table: the columns the library reads. */
  datatype FacilityRow = FacilityRow(docId: string, id: string, destinationCode: Option<string>)

  /** A row of the local `sync` table: a document id and its parsed body. */
  datatype SyncRow = SyncRow(id: string, body: Value)

  /** A snapshot of the local database, each table in the store's own order. */
  datatype Database = Database(facilities: seq<FacilityRow>, sync: seq<SyncRow>)

  predicate EndsWith(s: string, suffix: string) {
    |suffix| <= |s| && s[|s| - |suffix|..] == suffix
  }

  /** The literal part of the pattern `%<id>;entityType=<type>`, both
      formatted with Python's `str()`. */
  function DocIdSuffix(id: Value, entityType: Value): (r: Option<string>)
    ensures r.Some? <==> Display(id).Some? && Display(entityType).Some?
    ensures r.Some? ==>
      Display(id).value <= r.value && EndsWith(r.value, ";entityType=" + Display(entityType).value)
    ensures r.Some? ==>
      |r.value| == |Display(id).value| + |";entityType="| + |Display(entityType).value|
  {
    match (Display(id), Display(entityType))
    case (Some(i), Some(t)) =>
      var tail := ";entityType=" + t;
      var r := i + tail;
      assert r[..|i|] == i && r[|r| - |tail|..] == tail;
      Some(r)
    case _ => None
  }

  /** The docId: the first facilities key, in store order, that ends with
      `<id>;entityType=<type>`; `None` when no key does. */
  function DocId(facilities: seq<FacilityRow>, id: Value, entityType: Value): (r: Option<string>)
    ensures r.None? <==> (DocIdSuffix(id, entityType).None? ||
      forall i :: 0 <= i < |facilities| ==> !EndsWith(facilities[i].docId, DocIdSuffix(id, entityType).value))
    ensures r.Some? ==>
      exists i :: 0 <= i < |facilities| && facilities[i].docId == r.value &&
        EndsWith(r.value, DocIdSuffix(id, entityType).value) &&
        forall j :: 0 <= j < i ==> !EndsWith(facilities[j].docId, DocIdSuffix(id, entityType).value)
  {
    match DocIdSuffix(id, entityType)
    case None => None
    case Some(suffix) =>
      (match FirstIndex(facilities, (row: FacilityRow) => EndsWith(row.docId, suffix))
       case None => None
       case Some(k) => Some(facilities[k].docId))
  }

  /** `get_raw_facilities_data`: the body of the first `sync` row whose id
      is the docId. A missing docId matches no row (`id = NULL` in SQL). */
  function RawFacilitiesData(docId: Option<string>, sync: seq<SyncRow>): (r: Option<Value>)
    ensures docId.None? ==> r.None?
    ensures r.Some? ==> exists i :: 0 <= i < |sync| && sync[i].id == docId.value && sync[i].body == r.value
    ensures docId.Some? && r.None? ==> forall i :: 0 <= i < |sync| ==> sync[i].id != docId.value
  {
    match docId
    case None => None
    case Some(d) =>
      (match FirstIndex(sync, (row: SyncRow) => row.id == d)
       case None => None
       case Some(k) => Some(sync[k].body))
  }

  /** The ancestor destination id and its destination code. */
  datatype DestinationRef = DestinationRef(id: Option<string>, code: Option<string>)

  /** `ancestorDestination.id` cut at `;`, kept only when the facilities
      table has a row with that id; the code is that row's
      `destination_code`. A failed lookup clears both. */
  function ResolveDestination(data: Value, facilities: seq<FacilityRow>): (r: DestinationRef)
    ensures r.code.Some? ==> r.id.Some?
    ensures r.id.Some? <==>
      (exists s :: At(data, ["ancestorDestination", "id"]) == Some(Str(s)) &&
        exists i :: 0 <= i < |facilities| && facilities[i].id == Truncate(s))
    ensures r.id.Some? ==> (At(data, ["ancestorDestination", "id"]).value.Str? &&
      r.id.value == Truncate(At(data, ["ancestorDestination", "id"]).value.s))
    ensures r.id.Some? ==>
      exists i :: 0 <= i < |facilities| &&
        facilities[i].id == r.id.value && facilities[i].destinationCode == r.code &&
        forall j :: 0 <= j < i ==> facilities[j].id != r.id.value
  {
    match At(data, ["ancestorDestination", "id"])
    case Some(Str(s)) =>
      var d := Truncate(s);
      (match FirstIndex(facilities, (row: FacilityRow) => row.id == d)
       case Some(k) => DestinationRef(Some(d), facilities[k].destinationCode)
       case None => DestinationRef(None, None))
    case _ => DestinationRef(None, None)
  }

  /** When the code lookup finds no row, the id is dropped as well, even
      though the record named a destination. */
  lemma DestinationNeedsRow(data: Value, facilities: seq<FacilityRow>, s: string)
    requires At(data, ["ancestorDestination", "id"]) == Some(Str(s))
    requires forall i :: 0 <= i < |facilities| ==> facilities[i].id != Truncate(s)
    ensures ResolveDestination(data, facilities) == DestinationRef(None, None)
  {
  }

  /** The value of the first source that yields one. */
  function FirstOf(sources: seq<Option<string>>): (r: Option<string>)
    ensures r.None? <==> forall i :: 0 <= i < |sources| ==> sources[i].None?
    ensures r.Some? ==>
      exists i :: 0 <= i < |sources| && sources[i] == r &&
        forall j :: 0 <= j < i ==> sources[j].None?
  {
    match FirstIndex(sources, (o: Option<string>) => o.Some?)
    case None => None
    case Some(k) => sources[k]
  }

  /** `data['links'][name]['href']`, reduced to its link id. */
  function LinkAt(data: Value, name: string): (r: Option<string>)
    ensures var h := At(data, ["links", name, "href"]);
      (r.Some? <==> h.Some? && h.value.Str?) && (r.Some? ==> r.value == LinkId(h.value.s))
    ensures r.Some? ==> '/' !in r.value && '?' !in r.value
  {
    match At(data, ["links", name, "href"])
    case Some(Str(href)) => Some(LinkId(href))
    case _ => None
  }

  /** `facilities_data[key]` of the cached record, cut at `;`. */
  function CachedAt(cached: Option<Value>, key: string): (r: Option<string>)
    ensures r.Some? <==> cached.Some? && Get(cached.value, key).Some? && Get(cached.value, key).value.Str?
    ensures r.Some? ==> r.value == Truncate(Get(cached.value, key).value.s)
    ensures r.Some? ==> ';' !in r.value
  {
    match cached
    case None => None
    case Some(record) =>
      (match Get(record, key)
       case Some(Str(v)) => Some(Truncate(v))
       case _ => None)
  }

  /** The five ancestor fields of a character. */
  datatype Ancestors = Ancestors(
    park: Option<string>,
    resort: Option<string>,
    land: Option<string>,
    resortArea: Option<string>,
    entertainmentVenue: Option<string>)

  /** The park sources, in the order they are tried. */
  function ParkSources(data: Value, cached: Option<Value>): seq<Option<string>>
  {
    [LinkAt(data, "ancestorThemePark"), LinkAt(data, "ancestorWaterPark"),
     CachedAt(cached, "ancestorThemeParkId"), CachedAt(cached, "ancestorWaterParkId")]
  }

  /** The sources of every other ancestor field: its link, then its cached id. */
  function AncestorSources(data: Value, cached: Option<Value>, link: string, key: string): seq<Option<string>>
  {
    [LinkAt(data, link), CachedAt(cached, key)]
  }

  /** The five ancestor fields. Each is unset exactly when none of its
      sources yields a value. */
  function ResolveAncestors(data: Value, cached: Option<Value>): (r: Ancestors)
    ensures r.park.None? <==>
      LinkAt(data, "ancestorThemePark").None? && LinkAt(data, "ancestorWaterPark").None? &&
      CachedAt(cached, "ancestorThemeParkId").None? && CachedAt(cached, "ancestorWaterParkId").None?
    ensures r.resort.None? <==>
      LinkAt(data, "ancestorResort").None? && CachedAt(cached, "ancestorResortId").None?
    ensures r.land.None? <==>
      LinkAt(data, "ancestorLand").None? && CachedAt(cached, "ancestorLandId").None?
    ensures r.resortArea.None? <==>
      LinkAt(data, "ancestorResortArea").None? && CachedAt(cached, "ancestorResortAreaId").None?
    ensures r.entertainmentVenue.None? <==>
      LinkAt(data, "ancestorEntertainmentVenue").None? && CachedAt(cached, "ancestorEntertainmentVenueId").None?
  {
    FirstOfFour(LinkAt(data, "ancestorThemePark"), LinkAt(data, "ancestorWaterPark"),
      CachedAt(cached, "ancestorThemeParkId"), CachedAt(cached, "ancestorWaterParkId"));
    FirstOfTwo(LinkAt(data, "ancestorResort"), CachedAt(cached, "ancestorResortId"));
    FirstOfTwo(LinkAt(data, "ancestorLand"), CachedAt(cached, "ancestorLandId"));
    FirstOfTwo(LinkAt(data, "ancestorResortArea"), CachedAt(cached, "ancestorResortAreaId"));
    FirstOfTwo(LinkAt(data, "ancestorEntertainmentVenue"), CachedAt(cached, "ancestorEntertainmentVenueId"));
    Ancestors(
      FirstOf(ParkSources(data, cached)),
      FirstOf(AncestorSources(data, cached, "ancestorResort", "ancestorResortId")),
      FirstOf(AncestorSources(data, cached, "ancestorLand", "ancestorLandId")),
      FirstOf(AncestorSources(data, cached, "ancestorResortArea", "ancestorResortAreaId")),
      FirstOf(AncestorSources(data, cached, "ancestorEntertainmentVenue", "ancestorEntertainmentVenueId")))
  }

  /** Four sources: the first that yields a value. */
  lemma {:induction false} FirstOfFour(a: Option<string>, b: Option<string>, c: Option<string>, d: Option<string>)
    ensures FirstOf([a, b, c, d]) ==
      if a.Some? then a else if b.Some? then b else if c.Some? then c else d
  {
    var sources := [a, b, c, d];
    var r := FirstOf(sources);
    if r.Some? {
      var i :| 0 <= i < |sources| && sources[i] == r && forall j :: 0 <= j < i ==> sources[j].None?;
      assert i == 0 || sources[0].None?;
      assert i <= 1 || sources[1].None?;
      assert i <= 2 || sources[2].None?;
    } else {
      assert sources[0].None? && sources[1].None? && sources[2].None? && sources[3].None?;
    }
  }

  /** Two sources: the first that yields a value. */
  lemma {:induction false} FirstOfTwo(a: Option<string>, b: Option<string>)
    ensures FirstOf([a, b]) == if a.Some? then a else b
  {
    var sources := [a, b];
    var r := FirstOf(sources);
    if r.Some? {
      var i :| 0 <= i < |sources| && sources[i] == r && forall j :: 0 <= j < i ==> sources[j].None?;
      assert i == 0 || sources[0].None?;
    } else {
      assert sources[1].None?;
    }
  }

  /** The park id is the theme-park link, else the water-park link, else the
      cached theme-park id, else the cached water-park id, else nothing:
      the nesting of the four try blocks. */
  lemma ParkOrder(data: Value, cached: Option<Value>)
    ensures ResolveAncestors(data, cached).park ==
      if LinkAt(data, "ancestorThemePark").Some? then LinkAt(data, "ancestorThemePark")
      else if LinkAt(data, "ancestorWaterPark").Some? then LinkAt(data, "ancestorWaterPark")
      else if CachedAt(cached, "ancestorThemeParkId").Some? then CachedAt(cached, "ancestorThemeParkId")
      else CachedAt(cached, "ancestorWaterParkId")
  {
    FirstOfFour(LinkAt(data, "ancestorThemePark"), LinkAt(data, "ancestorWaterPark"),
      CachedAt(cached, "ancestorThemeParkId"), CachedAt(cached, "ancestorWaterParkId"));
  }

  /** Every other ancestor field is its link, else its cached id cut at `;`,
      else nothing. */
  lemma AncestorOrder(data: Value, cached: Option<Value>, link: string, key: string)
    ensures FirstOf(AncestorSources(data, cached, link, key)) ==
      if LinkAt(data, link).Some? then LinkAt(data, link) else CachedAt(cached, key)
  {
    FirstOfTwo(LinkAt(data, link), CachedAt(cached, key));
  }

  /** A theme-park link decides the park whatever the other sources hold. */
  lemma ThemeParkLinkWins(data: Value, cached: Option<Value>, href: string)
    requires At(data, ["links", "ancestorThemePark", "href"]) == Some(Str(href))
    ensures ResolveAncestors(data, cached).park == Some(LinkId(href))
  {
    ParkOrder(data, cached);
  }

  /** A link short-circuits its chain: the cached record is never consulted,
      so a field with a link resolves the same with any cached record. */
  lemma LinkShortCircuits(data: Value, cached1: Option<Value>, cached2: Option<Value>)
    ensures LinkAt(data, "ancestorThemePark").Some? || LinkAt(data, "ancestorWaterPark").Some? ==>
      ResolveAncestors(data, cached1).park == ResolveAncestors(data, cached2).park
    ensures LinkAt(data, "ancestorResort").Some? ==>
      ResolveAncestors(data, cached1).resort == ResolveAncestors(data, cached2).resort
    ensures LinkAt(data, "ancestorLand").Some? ==>
      ResolveAncestors(data, cached1).land == ResolveAncestors(data, cached2).land
    ensures LinkAt(data, "ancestorResortArea").Some? ==>
      ResolveAncestors(data, cached1).resortArea == ResolveAncestors(data, cached2).resortArea
    ensures LinkAt(data, "ancestorEntertainmentVenue").Some? ==>
      ResolveAncestors(data, cached1).entertainmentVenue == ResolveAncestors(data, cached2).entertainmentVenue
  {
    ParkOrder(data, cached1);
    ParkOrder(data, cached2);
    AllAncestorOrders(data, cached1);
    AllAncestorOrders(data, cached2);
  }

  lemma AllAncestorOrders(data: Value, cached: Option<Value>)
    ensures ResolveAncestors(data, cached).resort ==
      if LinkAt(data, "ancestorResort").Some? then LinkAt(data, "ancestorResort") else CachedAt(cached, "ancestorResortId")
    ensures ResolveAncestors(data, cached).land ==
      if LinkAt(data, "ancestorLand").Some? then LinkAt(data, "ancestorLand") else CachedAt(cached, "ancestorLandId")
    ensures ResolveAncestors(data, cached).resortArea ==
      if LinkAt(data, "ancestorResortArea").Some? then LinkAt(data, "ancestorResortArea") else CachedAt(cached, "ancestorResortAreaId")
    ensures ResolveAncestors(data, cached).entertainmentVenue ==
      if LinkAt(data, "ancestorEntertainmentVenue").Some? then LinkAt(data, "ancestorEntertainmentVenue")
      else CachedAt(cached, "ancestorEntertainmentVenueId")
  {
    AncestorOrder(data, cached, "ancestorResort", "ancestorResortId");
    AncestorOrder(data, cached, "ancestorLand", "ancestorLandId");
    AncestorOrder(data, cached, "ancestorResortArea", "ancestorResortAreaId");
    AncestorOrder(data, cached, "ancestorEntertainmentVenue", "ancestorEntertainmentVenueId");
  }

  /** With no cached record (no docId, or no sync row for it), a field
      without a link stays `None`. */
  lemma NoCacheNoFallback(data: Value)
    ensures LinkAt(data, "ancestorThemePark").None? && LinkAt(data, "ancestorWaterPark").None? ==>
      ResolveAncestors(data, None).park.None?
    ensures LinkAt(data, "ancestorResort").None? ==> ResolveAncestors(data, None).resort.None?
    ensures LinkAt(data, "ancestorLand").None? ==> ResolveAncestors(data, None).land.None?
    ensures LinkAt(data, "ancestorResortArea").None? ==> ResolveAncestors(data, None).resortArea.None?
    ensures LinkAt(data, "ancestorEntertainmentVenue").None? ==>
      ResolveAncestors(data, None).entertainmentVenue.None?
  {
    ParkOrder(data, None);
    AllAncestorOrders(data, None);
  }

  /** A record whose `ancestorThemePark` link is `https://x/y/123` has park
      `123`. */
  lemma ThemeParkLinkExample(cached: Option<Value>)
    ensures ResolveAncestors(
      Obj([("id", Str("X")), ("type", Str("Character")),
           ("links", Obj([("ancestorThemePark", Obj([("href", Str("https://x/y/123"))]))]))]),
      cached).park == Some("123")
  {
    var data := Obj([("id", Str("X")), ("type", Str("Character")),
           ("links", Obj([("ancestorThemePark", Obj([("href", Str("https://x/y/123"))]))]))]);
    assert At(data, ["links", "ancestorThemePark", "href"]) == Some(Str("https://x/y/123"));
    assert "https://x/y/123" == "https://x/y" + "/" + "123";
    LinkIdPlain("https://x/y", "123");
    ThemeParkLinkWins(data, cached, "https://x/y/123");
  }

  /** Without park links, a cached `ancestorThemeParkId` such as
      `456;entityType=Attraction` gives the park id before the `;`. */
  lemma CachedParkFallback(data: Value, id: string, suffix: string)
    requires LinkAt(data, "ancestorThemePark").None? && LinkAt(data, "ancestorWaterPark").None?
    requires ';' !in id
    ensures ResolveAncestors(data, Some(Obj([("ancestorThemeParkId", Str(id + ";" + suffix))]))).park == Some(id)
  {
    var record := Obj([("ancestorThemeParkId", Str(id + ";" + suffix))]);
    assert Get(record, "ancestorThemeParkId") == Some(Str(id + ";" + suffix));
    TruncateComposite(id, suffix);
    assert CachedAt(Some(record), "ancestorThemeParkId") == Some(id);
    ParkOrder(data, Some(record));
  }
}
