# Associated data and paging of road-segment relationships

A Dafny model of the part of the scenic-routing Java SDK's `GraphDb` class
that has logic of its own (the rest of the class sends Cypher statements to an
embedded Neo4j store):

- **The associated-data ledger.** `setAssociatedData` attaches a named JSON
  payload to a road-segment relationship. It records the name in the ledger:
  the string array under the reserved property `"associatedData"`. A new name
  is appended once, in first-attachment order. The payload then overwrites the
  property of that name. A single JSON object is stored as a one-element array;
  a JSON array is stored as it is.
- **Paging.** `getRelationshipPage` asks for the distinct relationships,
  ordered by `osm_id` descending, with SKIP `pageNumber * 5000` and LIMIT
  5000. `getRelationshipCount` counts the distinct relationships.

Modules:

- `AssociatedData` (associated_data.dfy): a relationship's properties as a
  `map<string, PropVal>`. Functions specify each operation as a change of that
  map; lemmas state the ledger's properties, over one call and over any
  sequence of calls.
- `GraphDb` (graph_db.dfy): the class `Relationship`, whose `props` map the
  methods `AddAssociatedDataProperty`, `SetAssociatedDataObject` and
  `SetAssociatedDataArray` update in place. Each is proved against the
  functions of `AssociatedData`.
- `Pager` (pager.dfy): page arithmetic in Java `int`, the SKIP/LIMIT slice,
  full-scan lemmas, and the count.
- `RoutingConstants`, `Json`, `Wrappers`, `Sequences`: the constants the code
  reads (page size 5000, key `"associatedData"`), JSON values,
  `Result`/`Outcome`, and duplicate-free sequences.

An exception thrown by the Java code is an error value in the model:

- `LedgerNotStringArray`: the cast `(String[])` at GraphDb.java:95 fails when
  the stored ledger is not a string array. Nothing has been written by then, so
  the relationship is unchanged.
- `NegativeSkip`: the store rejects a negative SKIP.

Two cases the Java code does not guard are modelled as written:

- **The reserved name.** `propertyName == "associatedData"` overwrites the
  ledger with JSON text, and every later attach on that relationship fails its
  cast (`ReservedNameBreaksLedger`). The invariant lemmas are therefore stated
  for the other names.
- **Overflow.** `pageNumber * 5000` is computed in 32-bit `int`. See
  Findings.

Two further points about the code:

- The JSON-array overload checks nothing about its argument: any array is
  stored, including an empty one or one that holds non-objects.
- `LedgerInvariant` states that every ledger name holds a JSON payload. The
  reverse cannot hold, because a relationship carries other properties
  (`osm_id`, `geom`).

## Model

| member | source | states |
|---|---|---|
| `AssociatedData.AddName` | src/main/java/me/callsen/taylor/scenicrouting/javasdk/data/GraphDb.java:96-99 | the ledger after the duplicate check keeps the old ledger as a prefix, contains the name, and grows by at most one; if the name was already present it is unchanged; a duplicate-free ledger stays duplicate-free |
| `AssociatedData.WithLedgerEntry` | src/main/java/me/callsen/taylor/scenicrouting/javasdk/data/GraphDb.java:91-106 | addAssociatedDataProperty succeeds exactly when the ledger is absent or a string array; the new ledger is the old one (absent = empty) with the name added; only the ledger key changes |
| `AssociatedData.Attach` | src/main/java/me/callsen/taylor/scenicrouting/javasdk/data/GraphDb.java:72-89 | setAssociatedData fails exactly when the ledger cannot be read; on success the name holds the payload, the ledger gains the name, and no other key changes |
| `AssociatedData.Wrapped` | src/main/java/me/callsen/taylor/scenicrouting/javasdk/data/GraphDb.java:76-77 | the JSON-object overload stores a one-element array holding that object |
| `AssociatedData.CreatesLedger` | src/main/java/me/callsen/taylor/scenicrouting/javasdk/data/GraphDb.java:101-105 | with no ledger, attaching creates the ledger exactly [name] |
| `AssociatedData.AppendsNewName` | src/main/java/me/callsen/taylor/scenicrouting/javasdk/data/GraphDb.java:95-100 | with a ledger that lacks the name, the new ledger is the old one with the name appended, earlier entries in their order |
| `AssociatedData.KnownNameLeavesLedger` | src/main/java/me/callsen/taylor/scenicrouting/javasdk/data/GraphDb.java:96-99 | with a ledger that already has the name, the ledger is unchanged and no error occurs |
| `AssociatedData.UnreadableLedgerFails` | src/main/java/me/callsen/taylor/scenicrouting/javasdk/data/GraphDb.java:94-95 | a stored ledger that is not a string array makes the call fail with the cast error |
| `AssociatedData.AttachPreservesInvariant` | src/main/java/me/callsen/taylor/scenicrouting/javasdk/data/GraphDb.java:72-106 | for every name other than "associatedData", an attach keeps the ledger duplicate-free and every ledger name holding a JSON payload, and the name is in the ledger afterwards |
| `AssociatedData.ReservedNameBreaksLedger` | src/main/java/me/callsen/taylor/scenicrouting/javasdk/data/GraphDb.java:85-95 | attaching under "associatedData" itself succeeds but replaces the ledger with JSON text, after which every attach on the relationship fails |
| `AssociatedData.SecondAttachOverwrites` | src/main/java/me/callsen/taylor/scenicrouting/javasdk/data/GraphDb.java:80-88 | two attaches under one name equal a single attach with the second payload: the first payload is discarded and the ledger holds the name once |
| `AssociatedData.AttachAllLedger` | src/main/java/me/callsen/taylor/scenicrouting/javasdk/data/GraphDb.java:91-106 | after any sequence of attaches, the ledger is the old ledger followed by the new names in first-attachment order |
| `AssociatedData.AttachAllPayloads` | src/main/java/me/callsen/taylor/scenicrouting/javasdk/data/GraphDb.java:72-89 | after any sequence of attaches, each name holds the payload of its last call, and a key no call names is as before |
| `AssociatedData.FirstAttachmentOrder` | src/main/java/me/callsen/taylor/scenicrouting/javasdk/data/GraphDb.java:91-106 | starting with no ledger, the ledger is the attached names in first-attachment order, duplicate-free, and its length is the number of distinct names |
| `AssociatedData.TwoNamesInCallOrder` | src/test/java/data/GraphDbTest.java:66-93 | attaching "myProp" then "myProp2" gives the ledger ["myProp", "myProp2"], each name holding its own payload |
| `AssociatedData.SameNameTwice` | src/test/java/data/GraphDbTest.java:95-120 | attaching "myProp" twice gives the ledger ["myProp"] and the second payload |
| `AssociatedData.TwoObjectsInCallOrder` | src/test/java/data/GraphDbTest.java:122-150 | attaching JSON objects under "myProp" then "myProp2" gives the ledger ["myProp", "myProp2"], each name holding the one-element array of its own object |
| `AssociatedData.SecondObjectOverwrites` | src/test/java/data/GraphDbTest.java:152-176 | attaching two JSON objects under "myProp" gives the ledger ["myProp"] and the one-element array of the second object |
| `GraphDb.AddAssociatedDataProperty` | src/main/java/me/callsen/taylor/scenicrouting/javasdk/data/GraphDb.java:91-106 | updates the relationship's properties as WithLedgerEntry says, or throws the cast error and changes nothing |
| `GraphDb.SetAssociatedDataObject` | src/main/java/me/callsen/taylor/scenicrouting/javasdk/data/GraphDb.java:72-81 | stores [obj] under the name after recording it, as Attach says; changes nothing on failure; keeps the ledger invariant for ordinary names |
| `GraphDb.SetAssociatedDataArray` | src/main/java/me/callsen/taylor/scenicrouting/javasdk/data/GraphDb.java:83-89 | stores the array unchanged under the name after recording it, as Attach says; changes nothing on failure; keeps the ledger invariant for ordinary names |
| `Pager.Wrap32` | src/main/java/me/callsen/taylor/scenicrouting/javasdk/data/GraphDb.java:67 | Java int arithmetic: the result is in the 32-bit range, congruent to the exact product modulo 2^32, and exact when the product fits |
| `Pager.SkipLimit` | src/main/java/me/callsen/taylor/scenicrouting/javasdk/data/GraphDb.java:68 | SKIP/LIMIT fails on a negative skip; otherwise it returns min(5000, max(0, n - skip)) relationships, those at positions skip, skip+1, ... |
| `Pager.StartIndexAsWritten` | src/main/java/me/callsen/taylor/scenicrouting/javasdk/data/GraphDb.java:67 | the skip as the code computes it: always an `int` value, congruent to pageNumber*5000 modulo 2^32, and equal to it for page numbers within ±429496 |
| `Pager.PageAsWritten` | src/main/java/me/callsen/taylor/scenicrouting/javasdk/data/GraphDb.java:66-70 | the code's page: the query fails exactly when the wrapped skip is negative; otherwise it holds min(5000, max(0, n - skip)) relationships, those from the wrapped skip on |
| `Pager.Page` | src/main/java/me/callsen/taylor/scenicrouting/javasdk/data/GraphDb.java:66-70 | the corrected page, with the skip computed in `long`: a page exists for every non-negative page number and holds min(5000, max(0, n - pageNumber*5000)) relationships, those from position pageNumber*5000 on; it equals the code's page for page numbers 0..429496 (`Pager.AsWrittenAgreesInRange`) |
| `Pager.AsWrittenAgreesInRange` | src/main/java/me/callsen/taylor/scenicrouting/javasdk/data/GraphDb.java:67 | for page numbers within ±429496 the int product is exact and the page as written is the intended page |
| `Pager.AsWrittenFailsPastRange` | src/main/java/me/callsen/taylor/scenicrouting/javasdk/data/GraphDb.java:67 | page 429497 gives the negative skip -2147482296, so the query fails where a page exists |
| `Pager.AsWrittenReturnsEarlierRows` | src/main/java/me/callsen/taylor/scenicrouting/javasdk/data/GraphDb.java:67-68 | page 858994 gives skip 2704: on 3000 relationships it returns rows 2704.. again instead of an empty page |
| `Pager.PageIsOrderedSlice` | src/main/java/me/callsen/taylor/scenicrouting/javasdk/data/GraphDb.java:68 | a page is the slice [pageNumber*5000, pageNumber*5000+5000) of the scan order, clipped to its length, and is itself distinct and descending by osm_id |
| `Pager.PagesDisjoint` | src/main/java/me/callsen/taylor/scenicrouting/javasdk/data/GraphDb.java:68 | over one fixed scan order, two different pages share no relationship |
| `Pager.ScanIsPrefix` | src/main/java/me/callsen/taylor/scenicrouting/javasdk/data/GraphDb.java:66-70 | pages 0..k-1 concatenated are exactly the first min(5000k, n) relationships of the scan order |
| `Pager.FullScan` | src/main/java/me/callsen/taylor/scenicrouting/javasdk/data/GraphDb.java:49-70 | over one fixed scan order, scanning pages upward returns every relationship once, in order, as many as the distinct count; the first empty page is the one after the last, and no earlier page is empty |
| `Pager.FixturePages` | src/test/java/data/GraphDbTest.java:36-39 | with the fixture's 676 relationships, page 0 holds all of them and page 1 is empty |
| `Pager.RelationshipCount` | src/main/java/me/callsen/taylor/scenicrouting/javasdk/data/GraphDb.java:49-64 | reading the result rows keeps the `total` of the last row, and 0 when there are no rows |
| `Pager.CountMatchesFullScan` | src/main/java/me/callsen/taylor/scenicrouting/javasdk/data/GraphDb.java:49-70 | the count the store answers equals the number of relationships a full scan of the pages returns |

## Findings

| source | as written | input that shows it | evidently intended | confidence | as-written member | corrected member |
|---|---|---|---|---|---|---|
| src/main/java/me/callsen/taylor/scenicrouting/javasdk/data/GraphDb.java:67 | `pageNumber * 5000` is multiplied in `int` and only then widened to the `long` `startIndex` | pageNumber 858994 wraps to skip 2704 and returns rows already seen; pageNumber 429497 wraps to a negative skip and the query fails | the product computed in `long` (`(long) pageNumber * 5000`) | not executed; the wrap follows from Java's int semantics | `Pager.AsWrittenReturnsEarlierRows` (on `Pager.PageAsWritten`) | `Pager.Page`, with `Pager.FullScan` and `Pager.ScanIsPrefix` proved about it |

## Left out

- Opening and shutting down the database, and creating transactions (GraphDb.java:32-47): lifecycle of the embedded store.
- Transaction commit, rollback and concurrent writers: the store's job. The model treats each call as one sequential update.
- Index creation and dropping (GraphDb.java:136-269): Cypher statements whose effect on the index catalogue is defined by the store. In the code, dropNodeIndexes issues both drops in one transaction, so a failing first drop skips the second.
- truncateGraphNodes and truncateGraphRelationships (GraphDb.java:108-134): single DETACH DELETE statements.
- The Cypher query text and the store's evaluation of MATCH, DISTINCT and ORDER BY: the distinct, osm_id-descending sequence is an input of the pager. Relationships without an osm_id, and the order among equal osm_ids, are not modelled. The paging lemmas assume every page query returns the same total order; if ties are broken differently between queries, pages can repeat or miss relationships.
- JSON text rendering and parsing (`toString`, org.json): a stored payload is the array itself. Object members are kept as their rendered text.
- Property values other than the ledger and payloads (numbers, points, plain strings) are one opaque case; point geometry and its coordinate reference system are not modelled.
- `Pager.RelationshipCount`: the rows of the count query are an input, and the Java `long` result is not bounded. That the store answers with one row holding the number of distinct relationships is stated by `CountQueryRows`.
- `GraphDb.SetAssociatedDataObject`, `GraphDb.SetAssociatedDataArray`: the store's own exceptions from `hasProperty`, `getProperty` and `setProperty` (a deleted relationship, a closed transaction) are not modelled; `Relationship.SetProperty` cannot fail. In the code, a throw from the payload write at GraphDb.java:80/88 comes after the ledger write at :105 and leaves the caller's transaction with the ledger updated and the payload unwritten, so "changes nothing on failure" covers only the cast error.
- Test fixture loading and temporary directories (TestUtils.java): file-system I/O.
