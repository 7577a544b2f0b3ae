# MouseTools characters and destinations, modelled in Dafny

MouseTools wraps the Disney facility service. It has two classes modelled here:

- `Character` (`MouseTools/characters.py`):
  - Fetches a character's record and refuses a record without an `id`.
  - Resolves its fields once, at construction:
    - its name, type and subtype;
    - its docId, found in the local `facilities` table;
    - the cached facilities record stored under that docId;
    - its ancestor destination and that destination's code;
    - five ancestor ids (park, resort, land, resort area and entertainment venue). Each one comes from a fixed chain of fallbacks.
  - After construction, getters read those fields. Five loops turn entries into ids or objects: four walk lists inside the record, and `get_possible_ids` walks a separately fetched listing. Their rule for a bad entry is the point of the model:
    - `get_possible_ids`, `get_associated_event_ids` and `get_associated_events` skip the bad entry;
    - `get_related_location_ids` stops at it;
    - `get_related_locations` stops at a malformed entry or at an object that cannot be built, and skips a type that has no class.
- `Destination` (`destinations.py`):
  - Checks the id argument before anything is fetched.
  - Normalises the display name: eight `replace` calls, then `strip`.
  - Reads the type.
  - Builds four listings of Park, Entertainment and Attraction objects. These have no handler, so one bad entry fails the whole call.

The model is a Dafny project with one module per file:

| module | file | contents |
|---|---|---|
| `Wrappers` | `wrappers.dfy` | `Option` and `Result` |
| `Sequences` | `sequences.dfy` | Generic list building: `Concat` (every element contributes zero or more values), `Walk` (every element emits, skips or stops), `All` (every element must yield). Each comes with the one-step lemma a loop invariant needs. |
| `Json` | `json.dfy` | Parsed JSON values and the Python operations the library applies to them. `j[k]` only works on a dict, and a repeated key keeps its last value. Iteration yields list items, dict keys or string characters. `str()` is modelled on scalars. |
| `Strings` | `strings.dfy` | `str.split` on one character, with its inverse `join`, and the first and last piece; the two-digit date padding. |
| `Links` | `links.dfy` | `href.split('/')[-1].split('?')[0]` and `value.split(';')[0]`. |
| `Names` | `names.dfy` | The destination name's replace chain and `strip`. A per-character reference table is proved equal to the chain. |
| `Resolution` | `resolution.dfy` | The database snapshot, the docId search, the cached record, the destination lookup and the ancestor fallback chains. |
| `Entries` | `entries.dfy` | The character loops as specification functions over the entries they walk. |
| `Characters` | `characters.dfy` | `class Character` and its record check. |
| `Destinations` | `destinations.dfy` | `class Destination`, its id check and record reading, and the listings. |

Both classes are immutable after construction, so their fields are `const`.

Construction is a static `Create` method. Its inputs are:

- the record the service returned;
- for a character, a snapshot of the local database.

Every Python path that raises is an explicit error value:

- a `Failure` of construction;
- `None` for a call that raises;
- for a loop inside an outer `try` that returns its list (the related-location and associated-event loops), the list built before the exception;
- nothing added, for an entry whose exception an inner `try` swallows (the possible-ids and associated-event loops).

The foreign classes (`Attraction`, `Facility`, `Entertainment`, `Park`) are a parameter `constructs: (Kind, string) -> bool`. It says whether the object for an id can be built.

## Model

| member | source | states |
|---|---|---|
| `Characters.Validate` | MouseTools/characters.py:21-42 | The record is refused as not available exactly when its `id` is missing or null. It is accepted exactly when the id is present and not null and `name` and `type` both exist. Otherwise the `KeyError` names `name` if that key is missing, else `type`. On success the name and type are the record's own, and the subtype is the record's `subType` or null. |
| `Characters.Iterated` | MouseTools/characters.py:197-212 | The elements a loop walks at a path. There are none when the path is missing or its value cannot be iterated; otherwise they are the value's Python iteration. |
| `Characters.Character.constructor` | MouseTools/characters.py:36-97 | Keeps the id, record and snapshot, and establishes `Valid`: every field equals what construction resolves from them. |
| `Characters.Character.Create` | MouseTools/characters.py:15-97 | Fails exactly when `Validate` fails, with the same error. Otherwise it returns a fresh character with every field resolved and the id kept as given. |
| `Characters.Character.Id` | MouseTools/characters.py:118-120 | The id given at construction. |
| `Characters.Character.Name` | MouseTools/characters.py:122-124 | The record's `name` value. |
| `Characters.Character.EntityType` | MouseTools/characters.py:126-128 | The record's `type` value. |
| `Characters.Character.SubType` | MouseTools/characters.py:130-132 | The record's `subType` when present, null otherwise. |
| `Characters.Character.DocId` | MouseTools/characters.py:134-136 | The docId search over the snapshot's facilities, for this id and type. |
| `Characters.Character.DestinationCode` | MouseTools/characters.py:138-140 | The destination code resolved at construction. A code implies an ancestor destination id. |
| `Characters.Character.AncestorDestinationId` | MouseTools/characters.py:142-144 | The resolved destination id, which never contains `;`. |
| `Characters.Character.AncestorParkId` | MouseTools/characters.py:146-148 | The first value of the four park sources, in order. |
| `Characters.Character.AncestorResortId` | MouseTools/characters.py:150-152 | The first value of the resort link and the cached `ancestorResortId`. |
| `Characters.Character.AncestorLandId` | MouseTools/characters.py:154-156 | The first value of the land link and the cached `ancestorLandId`. |
| `Characters.Character.AncestorResortAreaId` | MouseTools/characters.py:158-160 | The first value of the resort-area link and the cached `ancestorResortAreaId`. |
| `Characters.Character.AncestorEntertainmentVenueId` | MouseTools/characters.py:162-164 | The first value of the venue link and the cached `ancestorEntertainmentVenueId`. |
| `Characters.Character.Links` | MouseTools/characters.py:166-168 | A value exactly when the record is a dict with a `links` member. The value is that member. |
| `Characters.Character.RawFacilitiesData` | MouseTools/characters.py:170-181 | The `sync` body stored under the docId in the database as it is now. On the construction snapshot this is the cached record. |
| `Characters.Character.HasRelatedLocations` | MouseTools/characters.py:183-191 | True exactly when the record is a dict with a `relatedLocations` member. |
| `Characters.Character.PossibleIds` | MouseTools/characters.py:104-116 | `None` exactly when `listing['entries']` cannot be read or iterated. Otherwise the loop's result is `LinkIds` of the entries: each malformed entry skipped on its own. |
| `Characters.Character.RelatedLocationIds` | MouseTools/characters.py:214-229 | The loop's result is `LocationIds` of the primary locations: the pairs before the first malformed entry. |
| `Characters.Character.RelatedLocations` | MouseTools/characters.py:193-212 | The loop's result is `Entries.RelatedLocations` of the primary locations. |
| `Characters.Character.AssociatedEventIds` | MouseTools/characters.py:248-263 | The loop's result is `LinkIds` of the associated events. |
| `Characters.Character.AssociatedEvents` | MouseTools/characters.py:231-246 | The loop's result is `Events` of the associated events. |
| `Characters.Character.FormatDate` | MouseTools/characters.py:265-271 | The field padded by `ZeroPad`. |
| `Strings.ZeroPad` | MouseTools/characters.py:269-271 | A field shorter than two characters gains exactly one leading `'0'`; a longer one is unchanged. The input is always a suffix of the result. |
| `Strings.Split` | MouseTools/characters.py:47 | `str.split` on one character: at least one piece, no piece holds the separator, and a single piece exactly when the text has no separator, in which case it is the text. |
| `Strings.ZeroPadIdempotent` | MouseTools/characters.py:265-271 | A padded non-empty field has at least two characters, and padding it again changes nothing. |
| `Strings.First` | MouseTools/characters.py:47 | `split(sep)[0]` is the prefix before the first separator. It has no separator, and it is either the whole text or followed by one. |
| `Strings.Last` | destinations.py:55 | `split(sep)[-1]` is the suffix after the last separator. It has no separator, and it is either the whole text or preceded by one. |
| `Strings.JoinSplit` | MouseTools/characters.py:54 | `split` loses nothing: joining the pieces with the separator gives back the text. |
| `Strings.SplitJoin` | MouseTools/characters.py:54 | Joining separator-free pieces and splitting again gives back the pieces. |
| `Strings.FirstOfPrefix` | MouseTools/characters.py:60 | A separator-free `v` followed by the separator and anything is cut back to `v`. |
| `Strings.LastOfSuffix` | destinations.py:55 | Anything followed by the separator and a separator-free `t` gives `t` as its last piece. |
| `Links.LinkId` | MouseTools/characters.py:54 | The link id has neither `/` nor `?`. It is a prefix of the last path segment: the whole segment, or the part before its first `?`. |
| `Links.Truncate` | MouseTools/characters.py:47 | The part of a composite key before its first `;`: no `;`, and a prefix of the key that is the whole key or is followed by `;`. |
| `Links.LinkIdWithQuery` | MouseTools/characters.py:112 | `<anything>/<id>?<query>` yields `<id>`. |
| `Links.LinkIdPlain` | MouseTools/characters.py:112 | `<anything>/<id>` yields `<id>`. |
| `Links.TruncateComposite` | MouseTools/characters.py:60 | `<value>;<suffix>` truncates to `<value>` when the value has no `;`. |
| `Links.TruncateIdempotent` | MouseTools/characters.py:47 | A key without `;` is kept whole, so truncating twice equals truncating once. |
| `Json.Member` | MouseTools/characters.py:24 | `j[k]` on a dict's members: nothing exactly when no member has key `k`. Otherwise the value of a member with key `k` that no later member repeats, so a repeated key keeps its last value. |
| `Json.Get` | MouseTools/characters.py:24 | Only a dict yields a value for `j[k]`, and on a dict it is the member lookup. |
| `Json.At` | MouseTools/characters.py:54 | A chain of subscripts: the empty path is the value itself, a one-key path is that one subscript, and a missing first key gives nothing. |
| `Json.AtAppend` | MouseTools/characters.py:54 | A path in two parts: the second part is followed from where the first ends, and a failed first part fails the whole chain. |
| `Json.Elements` | MouseTools/characters.py:110 | What a `for` loop walks: null, booleans and numbers cannot be iterated; a list yields its items; a string yields one string per character; a dict yields strings, none exactly when it is empty. |
| `Json.Digits` | MouseTools/characters.py:43 | `str()` of a non-negative int: decimal digits only, a leading `0` exactly for zero (then just `"0"`), and the digits denote the number. |
| `Json.Display` | MouseTools/characters.py:43 | `str()` as `format` uses it: a string is itself, null is `None`, booleans are `True`/`False`, an int is its decimal digits with `-` when negative, and only lists and dicts have no modelled text. |
| `Resolution.DocIdSuffix` | MouseTools/characters.py:43 | The `LIKE` pattern's suffix exists exactly when both values have text. It is exactly the id's text followed by `;entityType=<type>`: it starts with the one, ends with the other, and is as long as both together. |
| `Resolution.DocId` | MouseTools/characters.py:43-44 | `None` exactly when no facilities key ends with `<id>;entityType=<type>`, or either value has no `str()` here. Otherwise it is the first such key in store order. |
| `Resolution.RawFacilitiesData` | MouseTools/characters.py:170-181 | No record without a docId. Otherwise it is the body of a `sync` row with that id, and `None` only when no row has it. |
| `Resolution.ResolveDestination` | MouseTools/characters.py:46-51 | An id exactly when `ancestorDestination.id` is a string whose part before `;` is the id of some facilities row. That part is the id, and the code is the first such row's `destination_code`. A code implies an id. |
| `Resolution.DestinationNeedsRow` | MouseTools/characters.py:48-51 | A named destination with no facilities row clears both the id and the code. |
| `Resolution.FirstOf` | MouseTools/characters.py:53-65 | The first source that yields a value, and `None` exactly when none does. |
| `Resolution.LinkAt` | MouseTools/characters.py:54 | An id exactly when `data['links'][name]['href']` is a string, and then it is that href's link id, so it never contains `/` or `?`. |
| `Resolution.CachedAt` | MouseTools/characters.py:60 | An id exactly when there is a cached record whose `key` member is a string, and then it is that string cut at its first `;`, so it never contains `;`. |
| `Resolution.FirstOfFour` | MouseTools/characters.py:53-65 | Four sources resolve as four nested `try` blocks: the first that yields wins. |
| `Resolution.FirstOfTwo` | MouseTools/characters.py:67-73 | Two sources resolve as two nested `try` blocks. |
| `Resolution.ResolveAncestors` | MouseTools/characters.py:53-97 | Each of the five ancestor ids is `None` exactly when every one of its sources, links and cached ids, is missing. |
| `Resolution.ParkOrder` | MouseTools/characters.py:53-65 | The park is tried in this order: theme-park link, water-park link, cached theme-park id, cached water-park id, else nothing. |
| `Resolution.AncestorOrder` | MouseTools/characters.py:67-73 | Any other ancestor is its link, else its cached id, else nothing. |
| `Resolution.AllAncestorOrders` | MouseTools/characters.py:67-97 | Resort, land, resort area and entertainment venue each resolve in link-then-cache order. |
| `Resolution.ThemeParkLinkWins` | MouseTools/characters.py:53-54 | A theme-park link decides the park whatever the other sources hold. |
| `Resolution.LinkShortCircuits` | MouseTools/characters.py:53-97 | A field with a link resolves the same whatever the cached record is. |
| `Resolution.NoCacheNoFallback` | MouseTools/characters.py:53-97 | Without a cached record, a field without a link stays `None`. |
| `Resolution.ThemeParkLinkExample` | MouseTools/characters.py:54 | The link `https://x/y/123` gives park `123`. |
| `Resolution.CachedParkFallback` | MouseTools/characters.py:60 | Without park links, a cached `ancestorThemeParkId` of `<id>;<suffix>` gives park `<id>`. |
| `Entries.SelfLinkId` | MouseTools/characters.py:112 | An id exactly when the entry's self href is a string, and then it is that href's link id, with no `/` or `?`. A string entry has none. |
| `Entries.LinkIds` | MouseTools/characters.py:110-114 | The possible ids and associated event ids: never more ids than entries. |
| `Entries.IdOf` | MouseTools/characters.py:111-114 | An entry adds its link id when it has one, and nothing otherwise. |
| `Entries.LinkIdsSkip` | MouseTools/characters.py:111-114 | A malformed entry is skipped, and the entries after it still count. |
| `Entries.LinkIdsAllWellFormed` | MouseTools/characters.py:110-114 | With every entry well formed there is exactly one id per entry, in entry order. |
| `Entries.LinkIdsFromEntries` | MouseTools/characters.py:110-114 | Every id is the link id of some entry. |
| `Entries.LinkIdsOfStrings` | MouseTools/characters.py:110-114 | Iterating a dict or a string yields strings, which give no ids. |
| `Entries.Events` | MouseTools/characters.py:239-244 | The associated events: never more objects than entries. |
| `Entries.EventOf` | MouseTools/characters.py:240-243 | An entry adds an Entertainment exactly when its link id exists and that object can be built, and nothing otherwise. |
| `Entries.EventsAreBuiltIds` | MouseTools/characters.py:231-263 | The associated events are exactly the associated event ids whose Entertainment can be built, in the same order. |
| `Entries.EventDropped` | MouseTools/characters.py:240-243 | An event that cannot be built is dropped on its own. |
| `Entries.EventKept` | MouseTools/characters.py:240-243 | An event that can be built appears in place. |
| `Entries.LocationOf` | MouseTools/characters.py:222-225 | A pair exactly when the entry has a `facilityType` and a link id, and the pair is `(id, facilityType)`. |
| `Entries.LocationStep` | MouseTools/characters.py:221-225 | The walk emits exactly at an entry with a pair, and then it emits that pair; it stops exactly at an entry without one. |
| `Entries.LocationIds` | MouseTools/characters.py:218-229 | The related location ids: never more pairs than entries. |
| `Entries.LocationIdsPrefix` | MouseTools/characters.py:218-229 | The result is the pairs of a prefix of the entries, one per entry. The walk ends at the end or at a malformed entry. |
| `Entries.LocationIdsStop` | MouseTools/characters.py:219-229 | A malformed entry hides everything after it, whatever comes before it. |
| `Entries.TagKind` | MouseTools/characters.py:204-209 | Only the tags `Attraction` and `Facility` select a class. |
| `Entries.Tagged` | MouseTools/characters.py:204-209 | The reference filter: never more objects than entries. |
| `Entries.RelatedStepOfPair` | MouseTools/characters.py:201-209 | Read off an entry's pair, the step is the type test of the loop: `Attraction` or `Facility` builds that object or stops, any other tag is skipped. |
| `Entries.RelatedStep` | MouseTools/characters.py:201-209 | A built object is an Attraction or a Facility, and it can be built. |
| `Entries.RelatedStepIsTagged` | MouseTools/characters.py:201-209 | The step stops exactly at a blocking entry: malformed, or its object cannot be built. Otherwise it contributes what the reference filter takes from the entry. |
| `Entries.RelatedLocations` | MouseTools/characters.py:193-212 | Every related location is an Attraction or a Facility that can be built, and there are no more than the entries. |
| `Entries.RelatedLocationsAreTaggedPrefix` | MouseTools/characters.py:197-212 | The related locations are the reference filter applied to the entries before the first blocking one. |
| `Entries.RelatedLocationsFilter` | MouseTools/characters.py:199-209 | Without blocking entries, the related locations are exactly the entries tagged `Attraction` or `Facility`. |
| `Entries.LinkIdsAdvance` | MouseTools/characters.py:110-114 | One loop step adds exactly the entry's contribution to the ids. |
| `Entries.EventsAdvance` | MouseTools/characters.py:239-243 | One loop step adds exactly the entry's contribution to the events. |
| `Entries.LocationIdsAdvance` | MouseTools/characters.py:221-225 | A malformed entry ends the loop with the result complete; otherwise the step adds the entry's pair. |
| `Entries.RelatedLocationsAdvance` | MouseTools/characters.py:200-209 | A stop ends the loop with the result complete; a skip adds nothing; a built object is appended. |
| `Entries.LocationEntryOf` | MouseTools/characters.py:201-202 | An entry with a type tag and a self link gives `(link id, tag)`. |
| `Entries.SkipThenEmit` | MouseTools/characters.py:204-209 | A skipped entry followed by a built one gives that one object. |
| `Entries.UnknownTagSkipped` | MouseTools/characters.py:204-209 | An entry with any tag other than `Attraction` or `Facility` is skipped, and the Attraction after it is built. |
| `Names.Fold` | destinations.py:31 | The reference table for one character: its output holds no table character, and a character outside the table is kept. |
| `Names.Replace` | destinations.py:31 | `str.replace` of one character: when the replacement does not contain it, the result does not either. |
| `Names.ReplaceOne` | destinations.py:31 | On one character, `replace` gives the replacement if it is the target and the character itself otherwise. |
| `Names.ReplaceAppend` | destinations.py:31 | `replace` of a single character works piecewise: replacing in `a + b` is replacing in `a` followed by replacing in `b`. |
| `Names.Strip` | destinations.py:31 | The result is a contiguous piece of the input, and everything outside it is whitespace in Python's sense. Neither end of the result is whitespace. Text that is already stripped is unchanged. |
| `Names.ReplaceAbsent` | destinations.py:31 | Replacing a character the text does not hold changes nothing. |
| `Names.ReplaceAllAbsent` | destinations.py:31 | A chain whose targets are all absent changes nothing. |
| `Names.ReplaceAllOne` | destinations.py:31 | A character first targeted by entry `i` becomes that entry's replacement, provided no later entry targets a character of it. |
| `Names.TableShape` | destinations.py:31 | The chain has eight distinct targets, all in the table, and no replacement holds a later target. |
| `Names.ChainOutside` | destinations.py:31 | A character outside the table passes through the chain unchanged. |
| `Names.ChainAt` | destinations.py:31 | Each entry's target becomes that entry's replacement. |
| `Names.ChainOne` | destinations.py:31 | The chain maps one character as the reference table does. |
| `Names.ChainIsFold` | destinations.py:31 | The chain of eight replacements equals the reference table applied character by character. |
| `Names.FoldAllClean` | destinations.py:31 | Folded text holds no table character. |
| `Names.FoldAllKeepsClean` | destinations.py:31 | Folding text without table characters changes nothing. |
| `Names.Normalize` | destinations.py:31 | The normalised name holds none of the eight table characters, and neither end is whitespace. |
| `Names.NoTableInStrip` | destinations.py:31 | Stripping text without table characters leaves none. |
| `Names.NormalizeKeepsClean` | destinations.py:31 | A stripped name without table characters is its own normal form. |
| `Names.NormalizeIdempotent` | destinations.py:31 | Normalising twice equals normalising once. |
| `Destinations.CheckId` | destinations.py:19-24 | `''` is refused as a missing id. Anything neither null nor a string is refused as a wrong type. Null and every non-empty string pass. |
| `Destinations.ReadRecord` | destinations.py:29-43 | A record that is not a dict reaches the `TypeError` handler. The record is read exactly when it is a dict with a string `name` and a `type`. The name is normalised and the type kept. No outcome is the missing-id error. |
| `Destinations.EntryId` | destinations.py:55 | An id exactly when the entry's self link is a string. The id is that link's last `/` segment, query included, so it has no `/`. |
| `Destinations.EntryObject` | destinations.py:55 | An object exactly when the entry's id exists and the object can be built, and it is of the requested class with that id. |
| `Destinations.ListingEntries` | destinations.py:51-54 | Entries exactly when the link is a string whose fetched document has an iterable `entries` member. They are that member's iteration. |
| `Destinations.Objects` | destinations.py:54-57 | A listing succeeds exactly when every entry yields an object. It then has one object per entry, in entry order, each of the requested class with the entry's id. |
| `Destinations.QueryKept` | destinations.py:55 | For an entry linked as `<prefix>/<id>?<query>`, the listing id is `<id>?<query>` while the character link id is `<id>`. |
| `Destinations.Destination.constructor` | destinations.py:26-32 | Keeps the id and record and establishes `Valid`. |
| `Destinations.Destination.Create` | destinations.py:13-43 | The id check comes first and fails with its own error whatever the record is. Then a record failure gives its error. Success exactly when both pass, with a fresh valid destination. |
| `Destinations.Destination.Name` | destinations.py:31 | The normalised record name: no table character and no surrounding whitespace. |
| `Destinations.Destination.EntityType` | destinations.py:32 | The record's `type` value. |
| `Destinations.Destination.Build` | destinations.py:54-57 | The loop's result is `Objects`: one object per entry, or failure at the first entry that has none. |
| `Destinations.Destination.Listing` | destinations.py:49-57 | `None` when the listing's entries cannot be read; otherwise the listing's `Objects`. |
| `Destinations.Destination.ThemeParks` | destinations.py:45-57 | The `themeParks` listing as Park objects. |
| `Destinations.Destination.WaterParks` | destinations.py:59-71 | The `waterParks` listing as Park objects. |
| `Destinations.Destination.Entertainments` | destinations.py:73-85 | The `entertainments` listing as Entertainment objects. |
| `Destinations.Destination.Attractions` | destinations.py:87-99 | The `attractions` listing as Attraction objects. |
| `Destinations.Destination.FormatDate` | destinations.py:101-109 | Month and day are each padded by `ZeroPad`, independently. |

## Where the code departs from its messages and its sibling code

The model follows the code in these four places:

- **Character record:** the only message for a bad record is "That character is not available" (`MouseTools/characters.py:30`). A record with an `id` but no `name` or no `type` does not get it: it fails with a `KeyError`, because lines 37-38 are outside any handler.
- **Destination record:** the `TypeError` handler prints "Destination object expects a string argument" (`destinations.py:38`). A fetched record that is not a dict also reaches it, because subscripting it raises `TypeError`; it does not reach the "not available" handler at lines 40-43.
- **`get_related_locations`:** `get_associated_events` (`MouseTools/characters.py:240-243`) skips one object that cannot be built. Here an `Attraction` or `Facility` that cannot be built ends the loop, because the single `try` encloses the whole loop. The objects built so far are returned.
- **Destination listings:** every character method cuts a link id at `?` (`MouseTools/characters.py:112`). The destination listings only split on `/` (`destinations.py:55`), so their ids keep any `?query` part.

## Left out

- **Network access:** the HTTP requests, headers and authentication are out of scope. The fetched documents are parameters: the record passed to `Create`, the listing passed to `PossibleIds`, and `fetch` in the destination listings.
- **Local database:** the sqlite `DisneyDatabase`, its synchronisation (`sync_on_init`), connections and commits are not modelled. The database is an immutable snapshot.
- `Resolution.DocId`:
  - treats the SQL `LIKE` pattern as a literal suffix test;
  - does not model `LIKE`'s `_` wildcard or its ASCII case-insensitivity;
  - takes the first matching row in the snapshot's order, where SQL fixes no order.
- **JSON parsing:** documents are already parsed, so these parse failures are not modelled:
  - an invalid character record, whose `.json()` error would escape the character constructor (`MouseTools/characters.py:22`);
  - an invalid possible-ids listing, whose `.json()` error would escape `get_possible_ids` (`MouseTools/characters.py:108`);
  - an invalid cached `sync` body, which would make the character constructor raise;
  - an invalid destination record, which would reach the missing-id handler;
  - an invalid listing, which would make the listing raise.
- **Floating-point numbers:** JSON numbers are integers.
- `Json.Display`: `str()` of a list or dict is not modelled, so a docId pattern built from one gives no docId.
- **Output and exit:** `print` is left out. `sys.exit()` in the destination handlers is modelled as a `Failure` carrying the handler that ran.
- **`__str__`:** `Destination.__str__` is not modelled.
- **Foreign constructors:** `Attraction`, `Facility`, `Entertainment` and `Park` are reduced to whether they succeed. Their own fetching and side effects are not modelled.
- `Destinations.ListingEntries`: a listing link that is not a string is treated as a failure. The library does not check what `requests.get` does with it.
- **Possible-ids URL:** the fixed listing URL fetched by `get_possible_ids` is not modelled; its document is the `listing` parameter.
- `Names.ReplaceChain` carries no contract of its own: what it does is stated by `Names.ChainIsFold`, `Names.ChainAt`, `Names.ChainOne` and `Names.ChainOutside`.
- **Dict iteration order:** iterating a dict yields its keys in first-insertion order. The loops give no ids or objects for string elements anyway, so only whether any elements exist matters.
