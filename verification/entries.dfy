/** The list-building loops of the character module, as functions over the
    entries a loop walks. They differ in what a bad entry does:
    - associated events and possible ids SKIP it and carry on;
    - related location ids STOP at it and keep what came before;
    - related locations stop at a malformed entry or at an object that cannot
      be built, and skip entries whose type has no class. */
module Entries {
  import opened Wrappers
  import opened Json
  import opened Links
  import opened Sequences

  /** The classes the library instantiates from an id. */
  datatype Kind = Attraction | Facility | Entertainment | Park

  /** An object of one of those classes, built from its id. */
  datatype Entity = Entity(kind: Kind, id: string)

  /** `entry['links']['self']['href']`, reduced to its link id. */
  function SelfLinkId(entry: Value): (r: Option<string>)
    ensures var h := At(entry, ["links", "self", "href"]);
      (r.Some? <==> h.Some? && h.value.Str?) && (r.Some? ==> r.value == LinkId(h.value.s))
    ensures r.Some? ==> '/' !in r.value && '?' !in r.value
    ensures entry.Str? ==> r.None?
  {
    match At(entry, ["links", "self", "href"])
    case Some(Str(href)) => Some(LinkId(href))
    case _ => None
  }

  /** What one entry adds to the ids: its link id, or nothing. */
  function IdOf(entry: Value): (r: seq<string>)
    ensures |r| <= 1
    ensures |r| == 1 <==> SelfLinkId(entry).Some?
    ensures |r| == 1 ==> r[0] == SelfLinkId(entry).value
  {
    match SelfLinkId(entry) case Some(id) => [id] case None => []
  }

  /** The ids of the entries whose self link can be read, in order; every
      other entry is skipped on its own. */
  function LinkIds(entries: seq<Value>): (r: seq<string>)
    ensures |r| <= |entries|
  {
    Concat(entries, IdOf)
  }

  /** A malformed entry is skipped and the entries after it still count. */
  lemma LinkIdsSkip(a: seq<Value>, e: Value, b: seq<Value>)
    requires SelfLinkId(e).None?
    ensures LinkIds(a + [e] + b) == LinkIds(a) + LinkIds(b)
  {
    ConcatAppend(a + [e], b, IdOf);
    ConcatAppend(a, [e], IdOf);
    ConcatOne(e, IdOf);
  }

  /** When every entry is well formed there is exactly one id per entry, in
      entry order. */
  lemma LinkIdsAllWellFormed(entries: seq<Value>)
    requires forall k :: 0 <= k < |entries| ==> SelfLinkId(entries[k]).Some?
    ensures |LinkIds(entries)| == |entries|
    ensures forall k :: 0 <= k < |entries| ==> LinkIds(entries)[k] == SelfLinkId(entries[k]).value
  {
    ConcatSingletons(entries, IdOf);
  }

  /** Every id comes from the self link of an entry. */
  lemma {:induction false} LinkIdsFromEntries(entries: seq<Value>)
    ensures forall k :: 0 <= k < |LinkIds(entries)| ==>
      exists i :: 0 <= i < |entries| && SelfLinkId(entries[i]) == Some(LinkIds(entries)[k])
  {
    if entries != [] {
      LinkIdsFromEntries(entries[1..]);
      var head := IdOf(entries[0]);
      var r := LinkIds(entries);
      assert r == head + LinkIds(entries[1..]);
      forall k | 0 <= k < |r|
        ensures exists i :: 0 <= i < |entries| && SelfLinkId(entries[i]) == Some(r[k])
      {
        if k < |head| {
          assert SelfLinkId(entries[0]) == Some(r[k]);
        } else {
          var i :| 0 <= i < |entries[1..]| && SelfLinkId(entries[1..][i]) == Some(LinkIds(entries[1..])[k - |head|]);
          assert SelfLinkId(entries[i + 1]) == Some(r[k]);
        }
      }
    } else {
      assert LinkIds(entries) == [];
    }
  }

  /** Strings, which is what iterating a dict or a str yields, give no ids. */
  lemma {:induction false} LinkIdsOfStrings(entries: seq<Value>)
    requires forall k :: 0 <= k < |entries| ==> entries[k].Str?
    ensures LinkIds(entries) == []
  {
    if entries != [] {
      LinkIdsOfStrings(entries[1..]);
    }
  }

  /** What one entry adds to the events: its Entertainment, or nothing. */
  function EventOf(entry: Value, constructs: (Kind, string) -> bool): (r: seq<Entity>)
    ensures |r| <= 1
    ensures |r| == 1 <==> SelfLinkId(entry).Some? && constructs(Entertainment, SelfLinkId(entry).value)
    ensures |r| == 1 ==> r[0] == Entity(Entertainment, SelfLinkId(entry).value)
  {
    match SelfLinkId(entry)
    case Some(id) => if constructs(Entertainment, id) then [Entity(Entertainment, id)] else []
    case None => []
  }

  /** The objects `get_associated_events` builds: one Entertainment per
      entry whose link can be read and whose object can be built; any other
      entry is skipped. */
  function Events(entries: seq<Value>, constructs: (Kind, string) -> bool): (r: seq<Entity>)
    ensures |r| <= |entries|
  {
    Concat(entries, (e: Value) => EventOf(e, constructs))
  }

  /** An id turned into an object of `kind`, when it can be built. */
  function BuiltOne(kind: Kind, constructs: (Kind, string) -> bool, id: string): seq<Entity>
  {
    if constructs(kind, id) then [Entity(kind, id)] else []
  }

  /** The events are exactly the associated event ids whose Entertainment
      object can be built, in the same order. */
  lemma {:induction false} EventsAreBuiltIds(entries: seq<Value>, constructs: (Kind, string) -> bool)
    ensures Events(entries, constructs) ==
      Concat(LinkIds(entries), (id: string) => BuiltOne(Entertainment, constructs, id))
  {
    var build := (id: string) => BuiltOne(Entertainment, constructs, id);
    if entries != [] {
      EventsAreBuiltIds(entries[1..], constructs);
      ConcatAppend(IdOf(entries[0]), LinkIds(entries[1..]), build);
      if SelfLinkId(entries[0]).Some? {
        ConcatOne(SelfLinkId(entries[0]).value, build);
      }
    }
  }

  /** An event whose object cannot be built is dropped on its own: the
      result loses exactly that one object. */
  lemma EventDropped(a: seq<Value>, e: Value, b: seq<Value>, constructs: (Kind, string) -> bool)
    requires SelfLinkId(e).Some? && !constructs(Entertainment, SelfLinkId(e).value)
    ensures Events(a + [e] + b, constructs) == Events(a, constructs) + Events(b, constructs)
  {
    var f := (x: Value) => EventOf(x, constructs);
    assert EventOf(e, constructs) == [];
    ConcatAppend(a + [e], b, f);
    ConcatAppend(a, [e], f);
    ConcatOne(e, f);
    assert Events(a + [e], constructs) == Events(a, constructs);
  }

  /** An event whose object can be built appears in place. */
  lemma EventKept(a: seq<Value>, e: Value, b: seq<Value>, constructs: (Kind, string) -> bool)
    requires SelfLinkId(e).Some? && constructs(Entertainment, SelfLinkId(e).value)
    ensures Events(a + [e] + b, constructs) ==
      Events(a, constructs) + [Entity(Entertainment, SelfLinkId(e).value)] + Events(b, constructs)
  {
    var f := (x: Value) => EventOf(x, constructs);
    ConcatAppend(a + [e], b, f);
    ConcatAppend(a, [e], f);
    ConcatOne(e, f);
  }

  /** `(id, loc['facilityType'])` of a related location entry; `None` when
      either part cannot be read. */
  function LocationOf(entry: Value): (r: Option<(string, Value)>)
    ensures r.Some? <==> Get(entry, "facilityType").Some? && SelfLinkId(entry).Some?
    ensures r.Some? ==> r.value == (SelfLinkId(entry).value, Get(entry, "facilityType").value)
  {
    match Get(entry, "facilityType")
    case None => None
    case Some(t) =>
      (match SelfLinkId(entry)
       case None => None
       case Some(id) => Some((id, t)))
  }

  /** A related-location-ids step: the entry's pair, or stop. */
  function LocationStep(entry: Value): (r: Step<(string, Value)>)
    ensures r.Stop? <==> LocationOf(entry).None?
    ensures r.Emit? <==> LocationOf(entry).Some?
    ensures r.Emit? ==> r.value == LocationOf(entry).value
  {
    match LocationOf(entry)
    case None => Stop
    case Some(pair) => Emit(pair)
  }

  /** `get_related_location_ids`: the pairs of the entries before the first
      malformed one. */
  function LocationIds(entries: seq<Value>): (r: seq<(string, Value)>)
    ensures |r| <= |entries|
  {
    Walk(entries, LocationStep)
  }

  /** The pairs are those of a prefix of the entries, one per entry, and
      the walk ends at the end or at a malformed entry. */
  lemma LocationIdsPrefix(entries: seq<Value>)
    ensures forall k :: 0 <= k < |LocationIds(entries)| ==> LocationOf(entries[k]) == Some(LocationIds(entries)[k])
    ensures |LocationIds(entries)| == |entries| || LocationOf(entries[|LocationIds(entries)|]).None?
  {
    WalkPrefix(entries, LocationStep);
  }

  /** A malformed entry hides everything after it, whatever comes before. */
  lemma LocationIdsStop(a: seq<Value>, e: Value, b: seq<Value>)
    requires LocationOf(e).None?
    ensures LocationIds(a + [e] + b) == LocationIds(a)
  {
    WalkStopsAt(a, e, b, LocationStep);
  }

  /** The class a related location's type tag selects. */
  function TagKind(t: Value): (r: Option<Kind>)
    ensures r == Some(Attraction) <==> t == Str("Attraction")
    ensures r == Some(Facility) <==> t == Str("Facility")
    ensures r.None? <==> t != Str("Attraction") && t != Str("Facility")
  {
    if t == Str("Attraction") then Some(Attraction)
    else if t == Str("Facility") then Some(Facility)
    else None
  }

  /** What one entry contributes to the reference filter. */
  function TaggedOf(entry: Value): (r: seq<Entity>)
    ensures |r| <= 1
  {
    match LocationOf(entry)
    case Some(loc) => if TagKind(loc.1).Some? then [Entity(TagKind(loc.1).value, loc.0)] else []
    case None => []
  }

  /** The reference filter: one object per well-formed entry tagged
      `Attraction` or `Facility`, in entry order. */
  function Tagged(entries: seq<Value>): (r: seq<Entity>)
    ensures |r| <= |entries|
  {
    Concat(entries, TaggedOf)
  }

  /** An entry that ends the walk. */
  predicate Blocks(entry: Value, constructs: (Kind, string) -> bool)
  {
    match LocationOf(entry)
    case None => true
    case Some(loc) => TagKind(loc.1).Some? && !constructs(TagKind(loc.1).value, loc.0)
  }

  /** A related-locations step: stop at a malformed entry; skip a tag with
      no class; build the object of the tag's class, or stop when it cannot
      be built. */
  function RelatedStep(entry: Value, constructs: (Kind, string) -> bool): (r: Step<Entity>)
    ensures r.Emit? ==> (r.value.kind == Attraction || r.value.kind == Facility) && constructs(r.value.kind, r.value.id)
  {
    match LocationOf(entry)
    case None => Stop
    case Some(loc) =>
      (match TagKind(loc.1)
       case None => Skip
       case Some(k) => if constructs(k, loc.0) then Emit(Entity(k, loc.0)) else Stop)
  }

  /** The step read off the entry's pair, as a loop over the pairs takes it. */
  lemma RelatedStepOfPair(entry: Value, constructs: (Kind, string) -> bool, id: string, t: Value)
    requires LocationOf(entry) == Some((id, t))
    ensures t == Str("Attraction") ==>
      RelatedStep(entry, constructs) == if constructs(Attraction, id) then Emit(Entity(Attraction, id)) else Stop
    ensures t == Str("Facility") ==>
      RelatedStep(entry, constructs) == if constructs(Facility, id) then Emit(Entity(Facility, id)) else Stop
    ensures t != Str("Attraction") && t != Str("Facility") ==> RelatedStep(entry, constructs) == Skip
  {
  }

  /** A step stops exactly at a blocking entry; otherwise it contributes
      what the reference filter takes from the entry. */
  lemma RelatedStepIsTagged(entry: Value, constructs: (Kind, string) -> bool)
    ensures RelatedStep(entry, constructs).Stop? <==> Blocks(entry, constructs)
    ensures RelatedStep(entry, constructs).Skip? ==> TaggedOf(entry) == []
    ensures RelatedStep(entry, constructs).Emit? ==> TaggedOf(entry) == [RelatedStep(entry, constructs).value]
  {
  }

  /** `get_related_locations`: walks the entries, building an Attraction or
      a Facility for the entries tagged so and skipping other tags; a
      malformed entry or an object that cannot be built ends the walk. */
  function RelatedLocations(entries: seq<Value>, constructs: (Kind, string) -> bool): (r: seq<Entity>)
    ensures |r| <= |entries|
    ensures forall k :: 0 <= k < |r| ==>
      (r[k].kind == Attraction || r[k].kind == Facility) && constructs(r[k].kind, r[k].id)
  {
    WalkEmitted(entries, (e: Value) => RelatedStep(e, constructs),
      (x: Entity) => (x.kind == Attraction || x.kind == Facility) && constructs(x.kind, x.id));
    Walk(entries, (e: Value) => RelatedStep(e, constructs))
  }

  /** Where the walk ends: the first blocking entry, or the end. */
  function Halt(entries: seq<Value>, constructs: (Kind, string) -> bool): (n: nat)
    ensures n <= |entries|
    ensures forall k :: 0 <= k < n ==> !Blocks(entries[k], constructs)
    ensures n < |entries| ==> Blocks(entries[n], constructs)
  {
    match FirstIndex(entries, (e: Value) => Blocks(e, constructs))
    case Some(k) => k
    case None => |entries|
  }

  /** The related locations are the tagged entries before the walk ends. */
  lemma {:induction false} RelatedLocationsAreTaggedPrefix(entries: seq<Value>, constructs: (Kind, string) -> bool)
    ensures RelatedLocations(entries, constructs) == Tagged(entries[..Halt(entries, constructs)])
  {
    var n := Halt(entries, constructs);
    if entries != [] {
      if Blocks(entries[0], constructs) {
        assert n == 0;
      } else {
        var tail := entries[1..];
        var m := Halt(tail, constructs);
        assert n == m + 1 by {
          forall k | 0 <= k < m + 1 ensures !Blocks(entries[k], constructs) {
            if k > 0 { assert entries[k] == tail[k - 1]; }
          }
          if m < |tail| { assert entries[m + 1] == tail[m]; }
        }
        RelatedLocationsAreTaggedPrefix(tail, constructs);
        var prefix := entries[..n];
        assert prefix[0] == entries[0];
        assert prefix[1..] == tail[..m];
        assert Tagged(prefix) == TaggedOf(entries[0]) + Tagged(tail[..m]);
      }
    }
  }

  /** Without malformed entries and failed constructions the related
      locations are exactly the entries tagged `Attraction` or `Facility`. */
  lemma RelatedLocationsFilter(entries: seq<Value>, constructs: (Kind, string) -> bool)
    requires forall k :: 0 <= k < |entries| ==> !Blocks(entries[k], constructs)
    ensures RelatedLocations(entries, constructs) == Tagged(entries)
  {
    RelatedLocationsAreTaggedPrefix(entries, constructs);
    var n := Halt(entries, constructs);
    assert n == |entries|;
    assert entries[..n] == entries;
  }

  /** One step of each walk, as a loop takes it: when `acc` followed by
      the walk of `entries[i..]` is the whole walk, so is `acc` extended
      by what `entries[i]` contributes followed by the walk of the rest. */
  lemma LinkIdsAdvance(entries: seq<Value>, i: nat, acc: seq<string>)
    requires i < |entries| && acc + LinkIds(entries[i..]) == LinkIds(entries)
    ensures (acc + IdOf(entries[i])) + LinkIds(entries[i + 1..]) == LinkIds(entries)
  {
    ConcatAdvance(entries, i, IdOf, acc);
  }

  lemma EventsAdvance(entries: seq<Value>, i: nat, constructs: (Kind, string) -> bool, acc: seq<Entity>)
    requires i < |entries| && acc + Events(entries[i..], constructs) == Events(entries, constructs)
    ensures (acc + EventOf(entries[i], constructs)) + Events(entries[i + 1..], constructs) == Events(entries, constructs)
  {
    ConcatAdvance(entries, i, (e: Value) => EventOf(e, constructs), acc);
  }

  /** For the walks that stop, the step also says when `acc` is already the
      whole result. */
  lemma LocationIdsAdvance(entries: seq<Value>, i: nat, acc: seq<(string, Value)>)
    requires i < |entries| && acc + LocationIds(entries[i..]) == LocationIds(entries)
    ensures LocationOf(entries[i]).None? ==> acc == LocationIds(entries)
    ensures LocationOf(entries[i]).Some? ==>
      (acc + [LocationOf(entries[i]).value]) + LocationIds(entries[i + 1..]) == LocationIds(entries)
  {
    WalkAdvance(entries, i, LocationStep, acc);
  }

  lemma RelatedLocationsAdvance(entries: seq<Value>, i: nat, constructs: (Kind, string) -> bool, acc: seq<Entity>)
    requires i < |entries|
    requires acc + RelatedLocations(entries[i..], constructs) == RelatedLocations(entries, constructs)
    ensures RelatedStep(entries[i], constructs).Stop? ==> acc == RelatedLocations(entries, constructs)
    ensures RelatedStep(entries[i], constructs).Skip? ==>
      acc + RelatedLocations(entries[i + 1..], constructs) == RelatedLocations(entries, constructs)
    ensures RelatedStep(entries[i], constructs).Emit? ==>
      (acc + [RelatedStep(entries[i], constructs).value]) + RelatedLocations(entries[i + 1..], constructs) ==
      RelatedLocations(entries, constructs)
  {
    WalkAdvance(entries, i, (e: Value) => RelatedStep(e, constructs), acc);
  }

  /** A related-location entry with a type tag and a self link. */
  function LocationEntry(tag: string, href: string): Value
  {
    Obj([("facilityType", Str(tag)), ("links", Obj([("self", Obj([("href", Str(href))]))]))])
  }

  lemma LocationEntryOf(tag: string, href: string)
    ensures LocationOf(LocationEntry(tag, href)) == Some((LinkId(href), Str(tag)))
  {
    var e := LocationEntry(tag, href);
    assert "links"[0] != "facilityType"[0];
    assert e.members[..1] == [("facilityType", Str(tag))];
    assert Member(e.members, "facilityType") == Member(e.members[..1], "facilityType");
    assert Member([("facilityType", Str(tag))], "facilityType") == Some(Str(tag));
    assert Get(e, "facilityType") == Some(Str(tag));
    var links := Obj([("self", Obj([("href", Str(href))]))]);
    assert Get(e, "links") == Some(links);
    assert Get(links, "self") == Some(Obj([("href", Str(href))]));
    assert At(e, ["links", "self", "href"]) == Some(Str(href));
  }

  /** Two entries, the first skipped and the second built. */
  lemma SkipThenEmit(x: Value, y: Value, constructs: (Kind, string) -> bool)
    requires RelatedStep(x, constructs).Skip? && RelatedStep(y, constructs).Emit?
    ensures RelatedLocations([x, y], constructs) == [RelatedStep(y, constructs).value]
  {
    WalkSkipEmit(x, y, (e: Value) => RelatedStep(e, constructs));
  }

  /** An entry whose type has no class (a `Show`, say) is skipped and an
      `Attraction` entry after it is built: one object results. */
  lemma UnknownTagSkipped(tag: string, prefix: string, skipped: string, id: string, constructs: (Kind, string) -> bool)
    requires tag != "Attraction" && tag != "Facility"
    requires '/' !in id && '?' !in id
    requires constructs(Attraction, id)
    ensures RelatedLocations(
      [LocationEntry(tag, prefix + "/" + skipped), LocationEntry("Attraction", prefix + "/" + id)],
      constructs) == [Entity(Attraction, id)]
  {
    var other := LocationEntry(tag, prefix + "/" + skipped);
    var ride := LocationEntry("Attraction", prefix + "/" + id);
    LocationEntryOf(tag, prefix + "/" + skipped);
    assert TagKind(Str(tag)).None?;
    LocationEntryOf("Attraction", prefix + "/" + id);
    LinkIdPlain(prefix, id);
    SkipThenEmit(other, ride, constructs);
  }
}
