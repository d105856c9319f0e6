# Catalog decoders

A Dafny model of the AddressablesTools catalog decoders: the Python reference reader, the Rust
parser that accelerates it, the JSON table decoders of both, and the generator of binary catalogs
that the benchmarks use. The two back ends decode the same untrusted bytes by different algorithms;
the theorems here say that they agree.

A binary catalog is a buffer of records that point at each other by offset. `StringSpec`,
`RecordSpec` and `Graph` say what an offset denotes with no cache at all: a linked-path string is
the chain of part records from an offset, if that chain ends; a location is its record with the
locations below it, if some recursion depth reaches all of them. Everything else is proved against
these three modules.

* `PythonReader` is the recursive reader: a stream cursor, an optional buffer, a string cache, a
  cache of chain tails and one object cache for types, options, locations and offset arrays. The
  cached tail of a chain may replace the rest of a walk, cycle check included, because every cached
  tail belongs to a chain that ends. Recursion has no cycle check; the model gives it the number of
  stack frames it may use, and `Frames` and `MapFrames` say exactly how many a record and a map take.
* `NativeParser` is the parser with an explicit stack of `(offset, expanded)` entries, an active set
  and its own string, kind and object caches. `PendingStack` holds the invariant of that stack: the
  expanded entries are a dependency path from the root, and every dependency of an expanded entry is
  cached or lies above it.
* `Objects` holds what is true of the object cache. Cached objects are of five kinds, and whatever is
  cached at an offset is accepted where the code accepts it. Locations and lists are class instances,
  so that sharing means identity.
* `Backends` puts both on one file: when they succeed, and that their results are two drawings of one
  shape, the one in the file: the same keys, fields and dependencies at every depth, with shared
  objects in the same places.
* `CatalogFile` parses a whole file: the header, the records it names, and then the map, by either
  back end from the object cache that the header phase filled.
* `Registry` is dispatch by type name while callbacks register decoders and aliases: decisions
  cached by revision number equal decisions made afresh, under every interleaving.
* `JsonSpec`, `JsonPython`, `JsonNative` and `JsonBackends` do the same for the bucket, key, location
  and extra tables of a JSON catalog; `IdPrefix` for the numbered prefixes of internal IDs.
* `Writer` and `MakeCatalog` are the catalog generator, and `RoundTrip`, `CatalogRoles`,
  `CatalogKeys` and `WriteThenRead` prove that both back ends read its files back exactly.
* The generator writes the same texts into several fields and none of the richer records. So
  `TextForms` writes strings in every form, `RecordForms` objects of every built-in kind, and
  `FullCatalog` a whole file with separate contents in every field; `JsonRoundTrip` packs the tables
  of a JSON catalog. Each is read back by both back ends and compared with the content itself;
  `PlainTexts` states the outcome for plain texts in full, and `References` says what numbers,
  hashes and joined paths mean without the decoders' own functions.

## What the code does and what holds

**On every file.** The methods that decode take any bytes. Each class has a ghost field `roles`, the
kind of record that each offset is used as, or `None`; with `None` no method asks anything of the
file. What then holds: every loop and recursion ends; a dependency cycle that is reported is a real
one; the Rust parser's direct lookup of a dependency never misses; and an object is right if it is of
the right kind all the way down (`Objects.EntryTrue`), so two results of right kinds are the same map
(`Backends.CleanResultsAgree`, `CatalogFile.ParseBinary`).

**On files in order**, where each offset is used as one kind of record, success is exact and results
are isomorphic. Three claims need such a condition.

* **One kind of record for each offset.** The Python reader keeps all its objects in one cache keyed
  by offset and accepts any hit; the Rust parser does not cache arrays. A hit is right if and only if
  it has the right kind: `Backends.TypeHitIsRight`, `CommonHitIsRight`, `BundleHitIsRight` and
  `LocationHitIsRight`. `KindClash` writes a catalog whose one location has an empty dependency array
  that starts at its type record: the Rust back end reads it, and the Python one takes the array for
  the type and fails (`KindClash.BackEndsDiffer`), as it does on every location of that form
  (`PythonReader.CatalogReader.LocationFromBinary`). The conditions are `CatalogFile.RecordsApart`
  for the Rust back end and `CatalogFile.AllApart`, with arrays, for the Python one. The files that the
  generator writes meet both (`WriteThenRead.WrittenCatalog`).
* **Recursion depth.** The Rust parser succeeds if and only if the map parses. The Python reader also
  needs the frames that memoised recursion from left to right takes, no more and no fewer
  (`MapFrames.FramesNeeded`). A stack as deep as the dependency graph is always enough
  (`MapFrames.DeepStackIsEnough`), a chain of first dependencies takes a frame for each record
  (`Frames.FirstChainNeedsFrames`), and a written catalog takes two, so that with a stack of one only
  the Rust back end reads it (`WriteThenRead.WriteThenRead`).
* **Empty reads past the end.** `read_bytes_at` gives no bytes on a stream and fails on a buffer when
  the count is zero and the position lies past the end. That is the only difference between the two
  (`PythonReader.CatalogReader.ReadBytesAt`), and no string, chain or array read meets it.

Success and failure are compared, and the value on success, not which error comes first: the Rust
parser decodes dependencies before the strings of the parent, the Python reader after. The version
is fixed by the header before any of this starts.

The project is for Dafny 4.11. The command `dafny verify dfyconfig.toml` covers every file.

## Model

| member | source | states |
|---|---|---|
| `CatalogFile.ParseBinary` | src/addressablestools/catalog.py:90-120 | For any bytes at all: two successful results in which every object has a right kind are the same catalog. Where each record offset is used as one kind of record the Rust back end succeeds if and only if header, records and map can be read, and gives the map the file depicts. Where arrays have offsets of their own as well, the Python back end succeeds if and only if the map also needs no more frames than its stack has, and the two results are isomorphic. A null-keyed first location whose array starts at the type of its data always fails in Python |
| `CatalogFile.ParsePython` | src/addressablestools/catalog.py:90-120 | The header phase and then the recursive reader, with the exact condition of success |
| `CatalogFile.ParseNative` | src/addressablestools/catalog.py:409-412 | The header phase and then the Rust parser on the object cache it filled, with the exact condition of success |
| `CatalogFile.ReadInit` | src/addressablestools/catalog.py:361-373 | The initialization record at an offset, with its type from the shared cache |
| `CatalogFile.ReadData` | src/addressablestools/catalog.py:101-118 | Everything a catalog holds besides its map; only the header array and types are cached by it |
| `CatalogFile.HeaderCacheOk` | src/addressablestools/catalog.py:101-118 | On a file in order, the header phase leaves a cache in order |
| `KindClash.BackEndsDiffer` | src/addressablestools/binary.py:258-297 | A whole catalog on which the Rust back end succeeds and the Python one fails at every stack depth: an empty dependency array starts where the type record does |
| `KindClash.ClashIsApart` | native/src/binary.rs:144-153 | On that file the Rust back end sees no clash, because it caches no arrays |
| `KindClash.ClashIsAhead` | src/addressablestools/catalog.py:478-484 | On that file the Python reader caches the array before it reads the type |
| `Backends.DecodeBoth` | src/addressablestools/catalog.py:416-450 | On every file, results of right kinds are the same map. On files in order the parser succeeds exactly when the index reads and every listed location decodes; the reader exactly when, besides, the frames suffice; both results draw the one shape that the file depicts: keys, order, fields and dependencies at every depth, the same object in the same places, a list object for each key |
| `Backends.DecodeAfter` | src/addressablestools/catalog.py:409-412 | The same after any earlier reads, when the parser starts from the object cache the reader has filled |
| `Backends.CleanResultsAgree` | src/addressablestools/catalog.py:416-450 | On every file: if both back ends succeed and each result holds only objects of right kinds, the maps are the same |
| `Backends.SameIndexSameMap` | native/src/binary.rs:505-528 | Results of two caches filled from one index have the same keys in the same order and lists of the same location graphs |
| `Backends.SameIndexSameShape` | native/src/binary.rs:505-528 | Two such results are drawings of one shape with one object for each record, so sharing agrees at every depth |
| `Backends.OwnShape` | native/src/binary.rs:505-528 | One result by itself draws the shape that its file depicts |
| `Backends.CacheDraws` | src/addressablestools/catalog.py:453-499 | The cached objects below any dependency-closed set of records are those records, one object for each |
| `Backends.WithinParses` | src/addressablestools/catalog.py:453-499 | A map that parses within some stack depth parses |
| `Backends.ParsesWithinSome` | src/addressablestools/catalog.py:453-499 | Every map that parses does so within some finite stack depth, so recursion without a cycle check is complete on acyclic maps |
| `Backends.TypeHitIsRight` | src/addressablestools/binary.py:291-294 | On every file, whatever is cached at a type offset is the type there if and only if it is a type |
| `Backends.CommonHitIsRight` | src/addressablestools/decoder.py:332-336 | On every file, whatever is cached where transfer options should be is right if and only if it is transfer options |
| `Backends.BundleHitIsRight` | src/addressablestools/decoder.py:259-266 | On every file, whatever is cached where bundle options should be is right if and only if it is a bundle whose own options are such |
| `Backends.LocationHitIsRight` | src/addressablestools/catalog.py:458-460 | On every file, whatever is cached at a location offset shows the location its record denotes if and only if it is a location made, all the way down, of objects of right kinds |
| `Graph.DecodesStep` | native/src/binary.rs:454-503 | A record decodes if and only if its own fields do and each of its dependencies does |
| `Graph.MeaningIs` | src/addressablestools/catalog.py:453-499 | Every sufficient recursion depth gives the same location |
| `Graph.MeaningStep` | src/addressablestools/catalog.py:453-499 | A location is its fields above the locations of its dependencies, in order |
| `Graph.CommonDepth` | src/addressablestools/catalog.py:479-482 | Finitely many records that decode share one sufficient depth |
| `Graph.PathBelowDecodable` | src/addressablestools/catalog.py:453-499 | Recursion n deep decodes everything on every dependency path from the root, and no such path is longer than n |
| `Graph.CycleNeverDecodes` | native/src/binary.rs:432-437 | No root from which a dependency path meets one record twice ever decodes |
| `Graph.NotBelowItself` | src/addressablestools/catalog.py:478-498 | A record is not reachable from a dependency of its own that decodes |
| `Graph.DecodesBelow` | native/src/binary.rs:426-449 | Everything on a dependency path below a record that decodes also decodes |
| `PendingStack.TopIsReached` | native/src/binary.rs:424-449 | The top of the stack is reached from the root along the path that the expanded entries form |
| `PendingStack.Skip` | native/src/binary.rs:427-429 | Dropping a cached entry keeps the stack invariant |
| `PendingStack.SkipExpanded` | native/src/binary.rs:427-429 | So does dropping an expanded entry that was cached, as whatever kind, while it waited |
| `PendingStack.Expand` | native/src/binary.rs:432-445 | Expanding an entry extends the dependency path by a record that was not on it |
| `PendingStack.Push` | native/src/binary.rs:439-444 | Pushing an uncached dependency of the record on top of the path keeps the invariant |
| `PendingStack.Finish` | native/src/binary.rs:447-448 | When an expanded entry comes back to the top all its dependencies are cached, and the path below it is intact |
| `PendingStack.ActiveAgain` | native/src/binary.rs:433-437 | Meeting an active record again is a real dependency path from the root that comes back to that record, and the root does not decode |
| `PendingStack.CycleFromNeverDecodes` | native/src/binary.rs:433-437 | A root from which a dependency path comes back has no value |
| `PendingStack.TopBreaksRoot` | native/src/binary.rs:430-447 | If the record on top does not decode, neither does the root |
| `PendingStack.BrokenTop` | native/src/binary.rs:430-447 | An unreadable record on top is one at or below the root |
| `Frames.FramesStep` | src/addressablestools/catalog.py:453-499 | A record not yet decoded takes one frame more than its dependencies do in turn, each with everything before it already decoded |
| `Frames.FramesWithinDepth` | src/addressablestools/catalog.py:453-499 | Memoised recursion never takes more frames than the dependency graph is deep |
| `Frames.FirstChainNeedsFrames` | src/addressablestools/catalog.py:478-482 | The limit bites: a chain of first dependencies takes a frame for each of its records |
| `Frames.DownwardStep` | src/addressablestools/catalog.py:478-498 | What is decoded below a record is the record and what is decoded below its dependencies |
| `Frames.FitsStep` | src/addressablestools/catalog.py:458-482 | A record fits a stack if and only if it was seen, or is readable and its dependencies fit one frame fewer |
| `Frames.FitsBoth` | src/addressablestools/catalog.py:446-449 | Two lists one after the other fit if and only if the first fits, and the second fits with everything below the first already decoded |
| `MapFrames.MapFitsExactly` | src/addressablestools/catalog.py:442-450 | The map fits a stack if and only if it parses and takes no more frames than there are |
| `MapFrames.DeepStackIsEnough` | src/addressablestools/catalog.py:442-450 | A stack as deep as the listed dependency graphs is enough |
| `MapFrames.NewDependencyNeedsTwo` | src/addressablestools/catalog.py:442-450 | A first listed location with a dependency takes at least two frames |
| `Objects.CacheAdd` | native/src/binary.rs:103-110 | Adding a true object keeps every cached object true for its kind, on every file; on files in order it also keeps kinds, and no object at two offsets |
| `Objects.CacheAddLocation` | native/src/binary.rs:501-502 | Adding a new location whose dependencies are cached keeps the cache closed under dependencies and one object for each record |
| `Objects.BuiltIsTrue` | src/addressablestools/catalog.py:486-498 | On every file: a location built from a readable record and true objects shows a location only if that is the one its record denotes |
| `Objects.BuiltIsRight` | native/src/binary.rs:484-502 | On files in order the location built decodes and is linked to its cached dependencies |
| `Objects.AttributesAreRight` | src/addressablestools/catalog.py:486-497 | Attributes made from a head, data and a type of right kinds are the fields of the record |
| `Objects.CacheHit` | native/src/binary.rs:90-101 | A hit is true for its own kind on every file, and of the kind its offset is used as on files in order |
| `Objects.CachedIs` | native/src/binary.rs:90-101 | A hit has the kind its offset is used as and equals the uncached decode there |
| `Objects.CachedLocation` | native/src/binary.rs:409-411 | A hit at a location offset is a location whose record decodes |
| `Objects.CacheClosed` | native/src/binary.rs:459-467 | Every dependency of a cached location is a cached location |
| `Objects.CacheClosedBelow` | native/src/binary.rs:459-467 | So is everything on a dependency path below a cached location |
| `Objects.DependencyRoles` | native/src/binary.rs:431-444 | On files in order the dependency offsets of a location are location offsets |
| `Objects.HeadSettles` | src/addressablestools/catalog.py:461-478 | The head of a location record decides its dependency list, and a location with an unreadable head has no value |
| `Objects.CachedObjectShows` | src/addressablestools/catalog.py:453-499 | Following references from a cached location gives the uncached recursive decode at its offset |
| `Objects.CachedObjectShowsMeaning` | src/addressablestools/catalog.py:458-460 | The whole object graph below a cached location is the location its record denotes |
| `Dicts.AssignThenLookup` | src/addressablestools/catalog.py:446-449 | Assigning a key changes the binding of that key class and of no other |
| `Dicts.CollectDistinct` | src/addressablestools/catalog.py:442-450 | A dictionary never holds two equal keys |
| `Dicts.LastEntryWins` | src/addressablestools/catalog.py:442-450 | A key is bound to the value of the last entry that carries an equal key |
| `Dicts.NoEntryNoBinding` | src/addressablestools/catalog.py:442-450 | A key that no entry carries is not bound |
| `Dicts.CollectDistinctEntries` | src/addressablestools/catalog.py:442-450 | Entries with different keys are all kept, in order |
| `Dicts.KeysStay` | src/addressablestools/catalog.py:442-450 | The key of every entry stays in the dictionary |
| `ResourceMap.EntriesPrefix` | src/addressablestools/catalog.py:443-449 | If all pairs can be read then so can the first ones, with the same entries |
| `ResourceMap.PairAdds` | src/addressablestools/catalog.py:443-449 | Reading one more pair adds its entry |
| `ResourceMap.ParsedPairReads` | native/src/binary.rs:511-526 | Each pair of a map that parses can itself be read |
| `ResourceMap.CarriesAssign` | src/addressablestools/catalog.py:446-449 | Binding a key to a new list of true objects keeps the result true and every list a different object |
| `ResourceMap.MatchesAssign` | src/addressablestools/catalog.py:446-449 | Binding a key to a list of cached locations keeps the result matched to the index |
| `ResourceMap.CleanResultIsRight` | src/addressablestools/catalog.py:416-450 | On every file: a result in which every object has a right kind has the keys and lists of the index, and each object shows the location its record denotes |
| `ResourceMap.SharingIsExact` | src/addressablestools/catalog.py:458-460 | Two positions of a result hold one object if and only if they come from one record offset |
| `ResourceMap.ResultShowsMeaning` | src/addressablestools/catalog.py:446-450 | Every object in a result shows the whole location graph that its record denotes |
| `PythonReader.CatalogReader.constructor` | src/addressablestools/binary.py:153-160 | A new reader has empty caches |
| `PythonReader.CatalogReader.Seek` | src/addressablestools/binary.py:33-37 | Seeking fails only below zero, and then leaves the cursor alone |
| `PythonReader.CatalogReader.ReadExact` | src/addressablestools/binary.py:42-48 | Exactly the asked bytes at the cursor, or failure; an empty read succeeds anywhere |
| `PythonReader.CatalogReader.ReadStructAt` | src/addressablestools/binary.py:85-100 | Stream and buffer give the same bytes, and the cursor comes back even on failure |
| `PythonReader.CatalogReader.ReadStructFrom` | src/addressablestools/binary.py:102-113 | Stream and buffer give the same bytes at an absolute position |
| `PythonReader.CatalogReader.ReadBytesAt` | src/addressablestools/binary.py:115-131 | Stream and buffer agree except on an empty read past the end, where the stream gives no bytes and the buffer fails; the cursor comes back in every case |
| `PythonReader.CatalogReader.ReadWordsFrom` | src/addressablestools/binary.py:139-140 | Little-endian words at an absolute position, from stream or buffer |
| `PythonReader.CatalogReader.ReadPrefix` | src/addressablestools/binary.py:180-187 | The signed length before an offset, with the same failures from stream and buffer |
| `PythonReader.CatalogReader.ReadBasicString` | src/addressablestools/binary.py:179-197 | The length-prefixed text at an offset, the same from stream and buffer |
| `PythonReader.CatalogReader.ReadPartRecord` | src/addressablestools/binary.py:219-222 | The string and the link of a part record; a failure means the chain has no value |
| `PythonReader.CatalogReader.ReadParts` | src/addressablestools/binary.py:205-227 | With the tail cache: exactly the parts of an uncached walk, failing exactly on unreadable or cyclic chains; every cached tail stays the full part list of a chain that ends; always terminates |
| `PythonReader.CatalogReader.ReadDynamicString` | src/addressablestools/binary.py:199-232 | The joined parts of the uncached chain, reversed from version 2 on |
| `PythonReader.CatalogReader.ReadEncodedString` | src/addressablestools/binary.py:234-256 | After any earlier reads, failed or not: what the encoded offset denotes with no cache, for every separator |
| `PythonReader.CatalogReader.ReadArray` | src/addressablestools/binary.py:265-287 | The array at the offset, from stream or buffer alike |
| `PythonReader.CatalogReader.ReadOffsetArray` | src/addressablestools/binary.py:258-289 | On every file the array at the offset, cached or not; it replaces any other object cached there |
| `PythonReader.CatalogReader.ReadSerializedType` | src/addressablestools/binary.py:291-305 | On every file whatever object is cached at the offset, else the type there; on files in order always the type |
| `PythonReader.CatalogReader.DecodeCommon` | src/addressablestools/decoder.py:346-364 | The same transfer options as from an unsigned flag word, before their version is set |
| `PythonReader.CatalogReader.CommonOptions` | src/addressablestools/decoder.py:332-336 | On every file: fails on a cached object of another kind, and otherwise gives the transfer options there, marked as version 3 |
| `PythonReader.CatalogReader.DecodeBundle` | src/addressablestools/decoder.py:321-343 | On every file, a success is the bundle options at the offset; on files in order it never fails on readable ones |
| `PythonReader.CatalogReader.BundleOptionsAt` | src/addressablestools/decoder.py:259-266 | Whatever object is cached at the offset, else the bundle options there |
| `PythonReader.CatalogReader.DecodePayload` | src/addressablestools/decoder.py:220-268 | A value of a right kind is the one the payload has, with the default for a null payload |
| `PythonReader.CatalogReader.ReadTypeName` | src/addressablestools/decoder.py:201-208 | On every file the type and match name at the offset; fails where another kind of object was cached before the name was known |
| `PythonReader.CatalogReader.DecodeObject` | src/addressablestools/decoder.py:187-268 | A typed object of right kinds is the one at the offset; on files in order it succeeds exactly when there is one |
| `PythonReader.CatalogReader.NotCachedByDependency` | src/addressablestools/catalog.py:478-482 | Decoding a dependency never puts the record that needs it into the cache |
| `PythonReader.CatalogReader.ReadHead` | src/addressablestools/catalog.py:461-476 | The seven words of a location record and its three strings |
| `PythonReader.CatalogReader.ReadFields` | src/addressablestools/catalog.py:484-497 | Attributes of right kinds are the fields of the record; on files in order it succeeds exactly when there are some |
| `PythonReader.CatalogReader.DecodeEach` | src/addressablestools/catalog.py:479-482 | One object for each listed offset, in order; on files in order it succeeds exactly when each record decodes in the frames left, and what is cached afterwards is what was, with everything below the list |
| `PythonReader.CatalogReader.LocationFromBinary` | src/addressablestools/catalog.py:453-499 | On every file the recursion ends and a hit is returned whatever it is. On files in order it succeeds if and only if the record decodes and takes no more frames than the stack has. Where its array starts at its unread type it fails |
| `PythonReader.CatalogReader.ReadPairs` | src/addressablestools/catalog.py:421-441 | The pairs of the index, alike through the array cache and straight from the buffer |
| `PythonReader.CatalogReader.ReadSizeAt` | src/addressablestools/catalog.py:429 | The byte size before the index, read without moving the cursor |
| `PythonReader.CatalogReader.DecodePair` | src/addressablestools/catalog.py:443-449 | A key and a list object of its own, with the exact condition of success on files in order |
| `PythonReader.CatalogReader.DecodeResources` | src/addressablestools/catalog.py:416-450 | The map assigned pair by pair from the entries of the index, with the exact condition of success on files in order |
| `NativeParser.DecodeAnyLocation` | native/src/binary.rs:408-452 | For every file and offset, with no condition: the loop ends, a reported cycle is a real dependency path from the root that comes back, and a result in which every object has a right kind is the location that the record denotes |
| `NativeParser.Parser.constructor` | native/src/binary.rs:46-84 | The object cache starts with what the header phase decoded |
| `NativeParser.Parser.Array` | native/src/binary.rs:144-153 | The array at an offset |
| `NativeParser.Parser.Parts` | native/src/binary.rs:177-195 | Without a tail cache: exactly the parts of an uncached walk, failing exactly on unreadable or cyclic chains; always terminates |
| `NativeParser.Parser.PartRecord` | native/src/binary.rs:186-191 | The string and the link of a part record |
| `NativeParser.Parser.String` | native/src/binary.rs:155-221 | What the encoded offset denotes with no cache, the same function the Python reader computes |
| `NativeParser.Parser.SingleRecord` | native/src/binary.rs:166-176 | Returning a single record without joining is right: a null part is the empty string |
| `NativeParser.Parser.SerializedTypeAt` | native/src/binary.rs:223-233 | Whatever object is cached at the offset, else the type there; on files in order always the type |
| `NativeParser.Parser.Common` | native/src/binary.rs:363-387 | Whatever object is cached at the offset, else the transfer options there |
| `NativeParser.Parser.Bundle` | native/src/binary.rs:389-406 | Whatever object is cached at the offset, else bundle options with whatever is cached where their transfer options should be |
| `NativeParser.Parser.Payload` | native/src/binary.rs:311-360 | A value of a right kind is the one the payload has |
| `NativeParser.Parser.Dispatch` | native/src/binary.rs:249-286 | On every file the kind cached for a type offset is the kind of the type recorded there |
| `NativeParser.Parser.Object` | native/src/binary.rs:235-361 | A typed object of right kinds is the one at the offset; on files in order it succeeds exactly when there is one |
| `NativeParser.Parser.ReadHead` | native/src/binary.rs:455-458 | The three strings of a location record |
| `NativeParser.Parser.ReadFields` | native/src/binary.rs:455-483 | Attributes of right kinds are the fields of the record; on files in order it succeeds exactly when there are some |
| `NativeParser.Parser.DependencyList` | native/src/binary.rs:459-468 | On every file: the direct lookup of every dependency succeeds and gives the object cached there |
| `NativeParser.Parser.DependenciesCached` | native/src/binary.rs:459-468 | What is cached at the dependency offsets is true there, and on files in order it is their locations |
| `NativeParser.Parser.BuildLocation` | native/src/binary.rs:454-503 | On every file, called only with all dependencies cached; a success is the location now cached at the offset. On files in order it succeeds if and only if the record decodes |
| `NativeParser.Parser.PushUncached` | native/src/binary.rs:439-444 | Pushes exactly the uncached dependencies, the first of them on top, and keeps the stack invariant |
| `NativeParser.Parser.ExpandTop` | native/src/binary.rs:432-445 | The record, marked expanded, with exactly its uncached dependencies above it; the path and the active set grow by it |
| `NativeParser.Parser.SkipTop` | native/src/binary.rs:427-429 | Dropping a cached entry, expanded or not, keeps the loop invariant |
| `NativeParser.Parser.FinishTop` | native/src/binary.rs:447-448 | Building the top record and leaving the active set keeps the loop invariant, whatever else was cached meanwhile |
| `NativeParser.Parser.UnreadableTop` | native/src/binary.rs:430-431 | An unreadable record on the stack means the root does not decode |
| `NativeParser.Parser.AllCached` | native/src/binary.rs:413-419 | The shortcut is taken if and only if every dependency is cached |
| `NativeParser.Parser.Location` | native/src/binary.rs:408-452 | On every file: the loop ends, each build finds every dependency cached, and a reported cycle is a real dependency path from the root that comes back to the reported offset. On files in order: succeeds if and only if the root decodes, and a failure without a cycle means that some record at or below the root cannot be read |
| `NativeParser.Parser.Locations` | native/src/binary.rs:514-524 | One object for each listed offset; on files in order it succeeds if and only if every listed record decodes |
| `NativeParser.Parser.Pair` | native/src/binary.rs:511-525 | A key and a list object of its own; on files in order it succeeds if and only if the pair can be read |
| `NativeParser.Parser.Resources` | native/src/binary.rs:505-528 | The map assigned pair by pair; on files in order it succeeds if and only if the map parses |
| `StringSpec.ChainIs` | src/addressablestools/binary.py:205-222 | The parts of a chain do not depend on how many records a walk may visit |
| `StringSpec.ChainUnfold` | native/src/binary.rs:180-195 | One step of a walk: a part and then the rest, or failure |
| `StringSpec.RevisitedChainFails` | native/src/binary.rs:181-185 | A chain that meets one record twice has no parts at any length |
| `StringSpec.EndedTailMeetsNoEarlierRecord` | src/addressablestools/binary.py:209-217 | A tail that ends contains no record of the walk that led to it, so a cached tail hides no cycle |
| `ChainWalk.WalkStarts` | src/addressablestools/binary.py:205-208 | The walk begins with the first part, and its tail right behind it |
| `ChainWalk.WalkContinues` | src/addressablestools/binary.py:218-222 | Visiting one more record keeps the walk equal to the chain, for the root and for the tail to be cached |
| `ChainWalk.WalkFinishes` | src/addressablestools/binary.py:210-213 | Ending the walk with the parts of what is left gives the whole chain and the whole tail |
| `ChainWalk.WalkRevisits` | src/addressablestools/binary.py:214-217 | Meeting a visited record means the chain has no value |
| `ChainWalk.WalkBreaks` | src/addressablestools/binary.py:219-220 | An unreadable record means the chain has no value |
| `Bytes.SignedBits` | src/addressablestools/decoder.py:347-363 | The five option bits are the same from the signed and from the unsigned flag word |
| `Bytes.PackOfWords` | src/addressablestools/models.py:48-50 | Unpacking bytes as little-endian words and packing them again is the identity, so both ways of hexing a hash agree |
| `Bytes.WordsOfPack` | benchmarks/benchmark_binary.py:92-95 | Packing words and reading them back is the identity |
| `Registry.ResolvedExactly` | src/addressablestools/decoder.py:99-107 | A name has at most one end of its alias chain; it resolves to that end if there is one, and fails if and only if no number of alias steps leaves the table |
| `Registry.DecoderRegistry.constructor` | src/addressablestools/decoder.py:57-60 | An empty registry at revision zero |
| `Registry.DecoderRegistry.Register` | src/addressablestools/decoder.py:73-91 | Changes one decoder and moves the revision on |
| `Registry.DecoderRegistry.Alias` | src/addressablestools/decoder.py:93-97 | Changes one alias and moves the revision on |
| `Registry.DecoderRegistry.Resolve` | src/addressablestools/decoder.py:99-107 | Always terminates with the end of the alias chain, or fails exactly when there is none |
| `Registry.Dispatcher.constructor` | native/src/binary.rs:69-72 | No decision is cached at the start |
| `Registry.Dispatcher.Dispatch` | native/src/binary.rs:250-286 | The cached decision is what resolving afresh would give at this moment |
| `Registry.Dispatcher.Run` | native/src/binary.rs:250-286 | Under every interleaving of reads with registrations and aliases, every answer is the fresh one |
| `IdPrefix.HashFrom` | src/addressablestools/catalog.py:305-307 | The first hash sign, or the end |
| `IdPrefix.NineteenDigitsFit` | native/src/json.rs:97-98 | At most nineteen digits parse to their decimal value without passing 64 bits |
| `IdPrefix.ExpansionsAgree` | native/src/json.rs:90-117 | Both back ends expand every ID alike |
| `JsonSpec.LargeCountFails` | native/src/json.rs:221-224 | A count that is refused early is one that the bucket loop would fail on |
| `JsonSpec.BucketsPrefix` | src/addressablestools/catalog.py:158-175 | If all buckets can be read then so can the first ones |
| `JsonSpec.MapCollects` | src/addressablestools/catalog.py:131-145 | The dictionary is what the buckets assign in order, so the last bucket of a key wins and first keys keep their place |
| `JsonSpec.JoinedNameSplits` | native/src/json.rs:193-194 | Comparing the two halves of a type name is comparing the joined name |
| `JsonPython.BinaryReader.ReadExact` | src/addressablestools/binary.py:42-48 | Exactly the asked bytes at the cursor, or failure |
| `JsonPython.BinaryReader.ReadInt32` | src/addressablestools/binary.py:62-63 | The signed word at the cursor |
| `JsonPython.BinaryReader.ReadString1` | src/addressablestools/decoder.py:366-369 | The text behind a one-byte length, with the cursor behind it |
| `JsonPython.BinaryReader.ReadString4` | src/addressablestools/decoder.py:371-379 | The text behind a four-byte length |
| `JsonPython.BinaryReader.DecodeClassObject` | src/addressablestools/decoder.py:162-174 | The class object at the cursor, recognised by its joined name |
| `JsonPython.BinaryReader.DecodeV1` | src/addressablestools/decoder.py:145-174 | The serialized object at the cursor |
| `JsonPython.ReadBucket` | src/addressablestools/catalog.py:159-173 | The bucket at the cursor |
| `JsonPython.ReadBuckets` | src/addressablestools/catalog.py:148-176 | Fails exactly on tables with an unreadable bucket; key offsets and entries are those of the buckets, in parallel |
| `JsonPython.ReadKey` | src/addressablestools/catalog.py:190-208 | The in-place string path and the stream path give the object at the offset |
| `JsonPython.ReadKeys` | src/addressablestools/catalog.py:179-209 | The keys at the offsets of the buckets, when the counts match |
| `JsonPython.CheckEach` | src/addressablestools/catalog.py:268-273 | The field by field checks pass if and only if the combined check does |
| `JsonPython.ReadLocation` | src/addressablestools/catalog.py:249-299 | The location that seven words denote; no later index is negative or out of range |
| `JsonPython.ReadLocations` | src/addressablestools/catalog.py:212-301 | The location table |
| `JsonPython.Smallest` | src/addressablestools/catalog.py:140 | The least entry |
| `JsonPython.Largest` | src/addressablestools/catalog.py:140 | The greatest entry |
| `JsonPython.PickLocations` | src/addressablestools/catalog.py:134-144 | Fails if and only if some entry is out of range; the smallest and largest entries decide it; else the listed places in the location table |
| `JsonPython.DecodeResources` | src/addressablestools/catalog.py:123-145 | The location table and the dictionary that the four tables denote, or failure when they denote none |
| `JsonNative.BucketRange` | native/src/json.rs:228-246 | The bucket at the cursor, with its entries as a byte range |
| `JsonNative.BucketRanges` | native/src/json.rs:217-247 | Fails exactly on the tables on which the Python loop fails, though large counts are refused early |
| `JsonNative.Key` | native/src/json.rs:131-143 | The object at an offset, with strings read in place |
| `JsonNative.Keys` | native/src/json.rs:249-263 | The keys at the offsets of the buckets, when the counts match |
| `JsonNative.Expand` | native/src/json.rs:277-285 | Replacing the IDs in place gives the IDs that the Python list holds |
| `JsonNative.Location` | native/src/json.rs:295-326 | The location that seven words denote |
| `JsonNative.Locations` | native/src/json.rs:266-328 | The location table |
| `JsonNative.PickRange` | native/src/json.rs:340-351 | Fails if and only if some entry is out of range |
| `JsonNative.Resources` | native/src/json.rs:210-355 | The location table and the dictionary that the four tables denote, or failure when they denote none |
| `JsonBackends.DecodeBoth` | native/src/json.rs:210-355 | On all bucket, key, entry and extra bytes both decoders fail, or both give the same location table and the same keys in the same order with lists of the same location objects |
| `Writer.ItemKept` | benchmarks/benchmark_binary.py:90-101 | Appending, or patching the header, disturbs nothing written before |
| `Writer.EncodeThenDecode` | benchmarks/benchmark_binary.py:97-98 | Encoding a text as ASCII and decoding it gives the text back |
| `Writer.PackedReads` | benchmarks/benchmark_binary.py:92-95 | Packed words at the end of the file read back |
| `Writer.CatalogWriter.constructor` | benchmarks/benchmark_binary.py:90 | A file of one empty header |
| `Writer.CatalogWriter.PutInt` | benchmarks/benchmark_binary.py:99 | A signed length at the end, if it fits |
| `Writer.CatalogWriter.PutRecord` | benchmarks/benchmark_binary.py:92-95 | The words can be read at the returned offset; fails exactly when one does not fit its field, 31 bits for the signed dependency hash; nothing else moves |
| `Writer.CatalogWriter.PutString` | benchmarks/benchmark_binary.py:97-102 | The text can be read at the returned offset; fails exactly on other than ASCII or on a length past 31 bits |
| `Writer.CatalogWriter.PutOffsets` | benchmarks/benchmark_binary.py:104-106 | The array can be read at the returned offset |
| `Writer.CatalogWriter.PutStringObject` | benchmarks/benchmark_binary.py:131 | The string object can be read at the returned offset |
| `Writer.CatalogWriter.PatchHeader` | benchmarks/benchmark_binary.py:136 | The eight header words read back, and nothing behind the header moves; fails exactly when one does not fit, 31 bits for magic and version |
| `MakeCatalog.PutType` | benchmarks/benchmark_binary.py:108-109 | A type record and its two strings |
| `MakeCatalog.PutTail` | benchmarks/benchmark_binary.py:120-122 | A chain of part records that lists the folders from the last one written to the first |
| `MakeCatalog.PutTypes` | benchmarks/benchmark_binary.py:111-114 | Four types at increasing offsets |
| `MakeCatalog.PutInit` | benchmarks/benchmark_binary.py:115-116 | The provider and the initialization record |
| `MakeCatalog.PutShared` | benchmarks/benchmark_binary.py:111-118 | Types, provider, bundle and the dependency list that every asset shares |
| `MakeCatalog.PutLocation` | benchmarks/benchmark_binary.py:126-128 | A linked path, a location and its list |
| `MakeCatalog.PutKey` | benchmarks/benchmark_binary.py:129-132 | A string object and the typed object that holds it |
| `MakeCatalog.PutAsset` | benchmarks/benchmark_binary.py:125-133 | Everything one asset writes, and the size it takes |
| `MakeCatalog.MakeCatalog` | benchmarks/benchmark_binary.py:87-137 | Every record of the file at its place, an index that names each asset twice, the exact length of the file; never fails on ASCII texts below 2^30 bytes |
| `RoundTrip.ChainMeans` | src/addressablestools/binary.py:199-222 | From any of its records on, a written chain reads as its remaining parts |
| `RoundTrip.PathMeans` | src/addressablestools/binary.py:228-232 | A written chain reads as its parts joined: wire order in version 1, reversed later |
| `RoundTrip.TypeMeans` | src/addressablestools/binary.py:300-305 | A written type reads back |
| `RoundTrip.KeyMeans` | src/addressablestools/decoder.py:239-250 | A written string key reads back as its text |
| `RoundTrip.LocationMeans` | src/addressablestools/catalog.py:461-497 | A written location reads back as its fields |
| `RoundTrip.AssetMeans` | benchmarks/benchmark_binary.py:124-133 | Location, dependency list, location list and both keys of an asset read back |
| `RoundTrip.AllMeans` | benchmarks/benchmark_binary.py:87-137 | Everything in the file reads back |
| `CatalogRoles.RolesAre` | benchmarks/benchmark_binary.py:87-137 | No offset of a written catalog is used as two kinds of record |
| `CatalogRoles.CatalogDisciplined` | benchmarks/benchmark_binary.py:87-137 | A written catalog uses each offset, arrays included, as one kind of record, so the agreement of the back ends applies to it |
| `CatalogRoles.LocationIsNoList` | benchmarks/benchmark_binary.py:127-128 | Locations and lists of different assets never share an offset |
| `CatalogKeys.DecimalInjective` | benchmarks/benchmark_binary.py:126 | Different indices have different decimal texts |
| `CatalogKeys.HexInjective` | benchmarks/benchmark_binary.py:130 | Different indices have different padded hexadecimal texts |
| `CatalogKeys.JoinHead` | src/addressablestools/binary.py:232 | A joined path starts with its first part, and what follows does not depend on it |
| `CatalogKeys.PathInjective` | benchmarks/benchmark_binary.py:126 | Different assets have different paths, in every version |
| `CatalogKeys.GuidInjective` | benchmarks/benchmark_binary.py:130 | Different assets have different guid keys |
| `CatalogKeys.PathIsNoGuid` | benchmarks/benchmark_binary.py:130 | No path is a guid key |
| `WriteThenRead.EntriesAre` | benchmarks/benchmark_binary.py:124-135 | The index reads as the path key and the guid key of each asset in turn, each with that asset's location |
| `WriteThenRead.ExpectedDistinct` | benchmarks/benchmark_binary.py:124-135 | All keys of the catalog are different |
| `WriteThenRead.CatalogParses` | benchmarks/benchmark_binary.py:87-137 | Recursion two records deep reads the whole catalog, and no key overwrites another |
| `WriteThenRead.CatalogHeld` | benchmarks/benchmark_binary.py:87-137 | Whatever draws the shape of a written file is the catalog: one location object for the two keys of an asset, different ones for different assets, one bundle object below them all, and a list object for each key |
| `WriteThenRead.WrittenMapTakesTwo` | src/addressablestools/catalog.py:442-450 | A written map takes exactly two frames, an empty one none |
| `WriteThenRead.HeaderReads` | benchmarks/benchmark_binary.py:136 | The patched header reads back as the version, the index offset and the initialization record |
| `WriteThenRead.DataMeans` | src/addressablestools/catalog.py:101-118 | The written initialization record reads back, and the header phase keeps one kind of record for each offset |
| `WriteThenRead.AssetHeld` | benchmarks/benchmark_binary.py:124-133 | Both keys of an asset hold the one object of its location record, whose one dependency is the object of the bundle record |
| `WriteThenRead.WriteThenRead` | benchmarks/benchmark_binary.py:87-137 | For every count and version whose file stays below 2^30 bytes: writing succeeds, and parsing the bytes gives exactly the catalog that was written, its data and its map, with the Rust back end always and with the Python one if and only if the catalog is empty or the stack has two frames |
| `BenchmarkLabels.BenchmarkCatalogReadsBack` | benchmarks/benchmark_binary.py:111-130 | The texts of the benchmark meet every condition of the round trip in versions 1 to 3 |
| `FullCatalog.WriteAndReadAll` | src/addressablestools/catalog.py:90-120 | For every content that can be decoded, in a file below 2^30 bytes: both back ends read back every field that was written, each from its own word: locator ID, build hash, both providers, all resource providers, the key, and a location with its internal ID, primary key, provider, signed dependency hash, type and data of any built-in kind. The Python back end needs one frame and no more |
| `PlainTexts.TextsReadBack` | src/addressablestools/catalog.py:474-497 | For all ASCII texts: a location whose words 0, 1 and 2 hold a key, a file in a folder and a provider reads back, with both back ends, with exactly these as primary key, internal ID and provider, with its signed hash, and with the hash, checksum and size of its bundle |
| `PlainTexts.InFolderReads` | src/addressablestools/binary.py:228-232 | Two linked parts read as the folder, a slash and the name, stored in the order that the version asks for |
| `PlainTexts.TwoLocationsReadBack` | native/src/json.rs:287-355 | A key that lists two locations has them in that order, and each location is made of the entries at its own indices, with both back ends |
| `FullCatalog.CatalogHeld` | src/addressablestools/catalog.py:442-450 | Whatever draws the map of the written file holds the one key and the one location that were written |
| `FullCatalog.LocationReads` | src/addressablestools/catalog.py:461-497 | The strings behind the words 0, 1 and 2 of a location are its primary key, internal ID and provider, word 4 is its signed hash, and words 5 and 6 give its data and type |
| `FullCatalog.IndexIs` | src/addressablestools/catalog.py:421-450 | The index of the written file reads as the key and its list, and one frame decodes it |
| `FullCatalog.InitReads` | src/addressablestools/catalog.py:361-373 | An initialization record reads back as the ID, type and data that were written |
| `FullCatalog.InitsRead` | src/addressablestools/catalog.py:361-373 | So do all records of an array, in order |
| `FullCatalog.DataReads` | src/addressablestools/catalog.py:101-118 | Each header field reads back from its own word |
| `FullCatalog.HeaderReads` | src/addressablestools/binary.py:319-345 | The eight words of a written header read back in order |
| `FullCatalog.HeaderLaw` | src/addressablestools/binary.py:319-345 | On every file of 28 bytes or more: which headers are read, the number in each word, and the one form that ends before the hash |
| `FullCatalog.RecordsOfFileApart` | src/addressablestools/catalog.py:453-499 | The written file uses each offset, arrays included, as one kind of record |
| `FullCatalog.WriteFull` | src/addressablestools/catalog.py:90-120 | Every record of the content at its place, types below all others; never fails on a file below 2^30 bytes |
| `RecordForms.ObjectReads` | src/addressablestools/decoder.py:187-268 | A typed object of any built-in kind reads back as the type and the value that were written |
| `RecordForms.PayloadReads` | src/addressablestools/decoder.py:220-268 | A payload of any kind, or none, reads back: 32- and 64-bit integers with their sign, a byte as true unless it is zero, any string, a hash as the text of its bytes, bundle options, and the default for null |
| `RecordForms.OptionsRead` | src/addressablestools/decoder.py:321-343 | Bundle options read back with hash, checksum, size, name and transfer options each from its own word |
| `RecordForms.TransferReads` | src/addressablestools/decoder.py:346-364 | The signed timeout, the two counts and the five flags, whatever the bits above them |
| `RecordForms.TypeReads` | src/addressablestools/binary.py:300-305 | A type reads back as the assembly and the class that were written, in any form of string |
| `RecordForms.NumbersRead` | src/addressablestools/binary.py:62-72 | The wrapped form of a 32- or 64-bit number reads back as the number |
| `RecordForms.PutContent` | src/addressablestools/decoder.py:187-268 | A typed object and its payload, at offsets that later writes keep |
| `TextForms.StoreAndRead` | src/addressablestools/binary.py:234-256 | For every string in every form, null, one byte a character, two bytes a character, or a path linked from such parts: both readers give what was written, and fail exactly when its bytes cannot be decoded |
| `TextForms.TextReads` | src/addressablestools/binary.py:234-256 | A stored string denotes what was written, for every separator |
| `TextForms.TwoReadings` | src/addressablestools/binary.py:179-197 | The same bytes are ASCII at their offset and UTF-16 with the top bit set |
| `TextForms.PieceReads` | src/addressablestools/binary.py:234-256 | A string that is no path denotes what was written whatever the separator, on its own and as a part |
| `TextForms.ChainReads` | src/addressablestools/binary.py:199-227 | A stored path has the texts of its parts, null parts left out, and none if one cannot be decoded |
| `TextForms.JoinedIs` | src/addressablestools/binary.py:228-232 | Joined from the front: in wire order in version 1 and backwards later, with one separator between two parts |
| `TextForms.FlagLaws` | src/addressablestools/binary.py:242-255 | On every file: without a separator the path flag is not looked at, on a path the UTF-16 flag is not, and other strings need no separator |
| `TextForms.OnlyNulls` | src/addressablestools/binary.py:239-240 | On every file the two null words, and no others, denote the null string |
| `TextForms.PutText` | src/addressablestools/binary.py:234-256 | A string in any form, its parts linked from the last to the first, at an encoded offset that later writes keep |
| `References.HexSpells` | native/src/binary.rs:535-543 | The text of a hash has two lower-case hexadecimal digits for each byte, in order, which denote the byte |
| `References.U16Is` | src/addressablestools/binary.py:56-57 | A 16-bit field is the number of its bytes, least significant first, signed by two's complement |
| `References.U32Is` | src/addressablestools/binary.py:62-66 | So is a 32-bit field |
| `References.Signed64Is` | src/addressablestools/binary.py:68-69 | So is a 64-bit field read as two words |
| `References.SplitJoin` | src/addressablestools/binary.py:232 | Cutting a joined path at its separators gives its parts back |
| `References.DecimalTextDenotes` | benchmarks/benchmark_binary.py:126 | The decimal text of a number denotes it |
| `References.HexTextDenotes` | benchmarks/benchmark_binary.py:130 | The padded hexadecimal text of a number denotes it |
| `RecordSpec.MatchNames` | src/addressablestools/models.py:19-37 | Up to version 2 the short assembly name, whatever follows the comma, and a missing one is an error; later the whole name, or the class alone |
| `ResourceMap.KeysShareBinding` | src/addressablestools/catalog.py:446-449 | Two keys share a binding if and only if they are the same value or the same number; the first key object stays, with the later list |
| `ResourceMap.BundleKeyFails` | src/addressablestools/catalog.py:446-449 | A map with bundle options for a key cannot be built |
| `MapFrames.ListedNeedsOne` | src/addressablestools/catalog.py:442-450 | A map that lists any location takes at least one frame |
| `Registry.AliasedAsTarget` | src/addressablestools/decoder.py:208-220 | A type is dispatched exactly as the end of its alias chain: by the decoder registered there, and otherwise as the built-in kind of that name |
| `Registry.EndlessIsUndecided` | src/addressablestools/decoder.py:107-115 | A type whose alias chain never ends is dispatched as nothing |
| `Registry.AnswerAt` | src/addressablestools/decoder.py:187-220 | In any run each read is answered from the table as it stands at that moment |
| `Registry.RunAliased` | src/addressablestools/decoder.py:208-220 | In any run, after an alias from a to b with b no alias, reads of types named a and b give the same answer: custom if b has a decoder by then, and otherwise the built-in kind of b |
| `IdPrefix.NumberedPrefix` | src/addressablestools/catalog.py:304-314 | A decimal number before the first hash sign is replaced by the prefix at that number, and what follows the sign is kept; past the prefixes the ID stays |
| `IdPrefix.OtherIds` | src/addressablestools/catalog.py:304-314 | An ID with no hash sign stays as it is; what else stands before the first counts as the number that the interpreter reads there, if it reads one within the prefixes |
| `JsonRoundTrip.WriteThenRead` | native/src/json.rs:210-355 | For every content whose numbers fit their fields: both back ends read every location back with the ID, provider, dependency key, dependency hash, data, primary key and type at its written indices, and every key with its written places in order |
| `JsonRoundTrip.LocationReads` | src/addressablestools/catalog.py:243-301 | The location of seven written integers has the field at each of them |
| `JsonRoundTrip.LocationTableReads` | src/addressablestools/catalog.py:212-301 | The table of locations reads back, in order |
| `JsonRoundTrip.BucketTableReads` | src/addressablestools/catalog.py:148-177 | The buckets read back in order, each with its offset and its entries in their order |
| `JsonRoundTrip.KeyTableReads` | src/addressablestools/catalog.py:180-209 | Every key is the object that was written at the offset of its bucket |
| `JsonRoundTrip.MapReads` | src/addressablestools/catalog.py:129-145 | The dictionary is the written keys assigned in order, each with its written places |
| `JsonRoundTrip.ItemReads` | src/addressablestools/decoder.py:146-175 | An object of each of the eight kinds reads back as what it denotes, and fails exactly when its bytes denote nothing |
| `JsonRoundTrip.ClassReads` | src/addressablestools/decoder.py:163-175 | A class object is bundle options if and only if its short assembly name and its class are theirs |
| `JsonRoundTrip.CommaCuts` | src/addressablestools/models.py:19-24 | The short name is the given one if and only if the name is that alone or goes on behind a comma |
| `JsonRoundTrip.IntsRead` | src/addressablestools/catalog.py:166-170 | Packed signed integers read back in their order |
| `Writer.CatalogWriter.PutSized` | benchmarks/benchmark_binary.py:97-102 | Bytes in any encoding behind their number, readable at the returned offset; fails exactly on a length past 31 bits |
| `Writer.CatalogWriter.PutBlock` | benchmarks/benchmark_binary.py:90-101 | Bytes at the end, readable at the returned offset |

## Left out

- PythonReader.CatalogReader.LocationFromBinary: the interpreter's recursion limit is a number of frames given by the
  caller, one for each call of the location decoder, hits included; what frames the calls inside it take is not modelled.
- CatalogFile.ParseBinary: on files that are not in order, success is decided only in the family of `KindClash`;
  a result with an object of a wrong kind in it is not described further.
- Registry.Dispatcher.Run: a parse is a sequence of object reads and registry changes; the values that callbacks
  return, their writes to the stream and the scalar reads that follow are not modelled, nor is a
  revision number past 64 bits.
- MakeCatalog.GuidText: exactly thirty-two hexadecimal digits, where the generator's format would grow past 16^32 assets.
- FullCatalog.WriteAndReadAll: one key with one location that has no dependencies; many of both, with shared
  dependencies, are in `WriteThenRead`. Bundle options cannot be a key and are left out there.
- JsonRoundTrip.WriteThenRead: contents whose objects all denote something; `ItemReads` has the failures.
- JsonBackends.DecodeBoth: location objects are their places in the location table, and the lists of the keys are values.
- The graph and cache theorems cover parsing without a registry; with one, the Rust parser works on
  the Python reader's object cache through the same algorithm.
- Which error is raised, and its message; error values are one `Fail`, except for the offset of a
  reported dependency cycle.
- Updates in place of decoded options, bundles and types: these are values here, and only locations
  and the lists of the binary map have identity.
- `hash_code` of locations, which depends on the process.
- The UTF-16 decoder, `int()` on anything but a run of ASCII digits, `json.loads`, Base64 and `str()`
  of keys: each is one fixed function that both back ends share.
- The table of built-in type names: any function from match names to kinds, one for both back ends.
- Integer widths of offsets: every 32-bit field is a number below 2^32, and sums of offset and size
  are exact, as they are in Python and in 64-bit Rust.
- Texts with lone surrogates, which the Rust prefix expansion hands to the Python helper.
- Foreign calls of the Rust parser into Python, the interpreter lock, back-end selection and the
  public entry points.
- Header fields of JSON catalogs, `locate` and `iter_locations`, the legacy wrapper module, and the
  timing and memory code of the benchmarks: shallow, or only easier members.
