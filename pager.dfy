/**
 * Relationship paging and counting (GraphDb.getRelationshipPage and
 * GraphDb.getRelationshipCount).
 *
 * The store's answer to "all distinct relationships, ordered by osm_id
 * descending" is an input here: a duplicate-free sequence in that order. A page
 * is the slice that SKIP and LIMIT select from it.
 *
 * The Java code computes the skip as `pageNumber * 5000` in 32-bit `int`
 * arithmetic before widening it to `long`; StartIndexAsWritten models that,
 * StartIndex the product the `long` variable was evidently meant to hold.
 */
module Pager {
  import opened Wrappers
  import RoutingConstants
  import opened Sequences

  newtype int32 = x: int | -0x8000_0000 <= x < 0x8000_0000

  const PageSize: int := RoutingConstants.GraphRelationshipPaginationAmount

  /** The largest page number whose skip fits in an `int`. */
  const LastExactPage: int := 429496

  /** A road-segment relationship: its identity in the store and its osm_id. */
  datatype Way = Way(id: nat, osmId: int)

  /** The store rejects a negative SKIP. */
  datatype PageError = NegativeSkip

  function Min(a: int, b: int): int { if a <= b then a else b }

  function Max(a: int, b: int): int { if a >= b then a else b }

  predicate DescendingByOsmId(s: seq<Way>) {
    forall i, j :: 0 <= i < j < |s| ==> s[i].osmId >= s[j].osmId
  }

  /** `ordered` is what the paging query enumerates over `graph`: every
      relationship once, by descending osm_id. */
  predicate IsScanOrder(graph: set<Way>, ordered: seq<Way>) {
    NoDuplicates(ordered) && DescendingByOsmId(ordered) && (set w | w in ordered) == graph
  }

  /** Java's `int` multiplication: the product reduced to 32-bit two's complement. */
  function Wrap32(x: int): (r: int)
    ensures -0x8000_0000 <= r < 0x8000_0000
    ensures (x - r) % 0x1_0000_0000 == 0
    ensures -0x8000_0000 <= x < 0x8000_0000 ==> r == x
  {
    var m := x % 0x1_0000_0000;
    if m < 0x8000_0000 then m else m - 0x1_0000_0000
  }

  /** The skip as written: `pageNumber * 5000` in `int`, then widened. It is
      always an `int` value, and it is the true product only where that fits. */
  function StartIndexAsWritten(pageNumber: int32): (start: int)
    ensures -0x8000_0000 <= start < 0x8000_0000
    ensures (pageNumber as int * PageSize - start) % 0x1_0000_0000 == 0
    ensures -LastExactPage <= pageNumber as int <= LastExactPage ==> start == pageNumber as int * PageSize
  {
    Wrap32(pageNumber as int * PageSize)
  }

  /** The skip the `long` variable was meant to hold. */
  function StartIndex(pageNumber: int32): int {
    pageNumber as int * PageSize
  }

  /** SKIP `skip` LIMIT 5000 over `ordered`. */
  function SkipLimit(ordered: seq<Way>, skip: int): (r: Result<seq<Way>, PageError>)
    ensures r.Err? <==> skip < 0
    ensures r.Ok? ==> |r.value| == Min(PageSize, Max(0, |ordered| - skip))
    ensures r.Ok? ==> forall i :: 0 <= i < |r.value| ==> r.value[i] == ordered[skip + i]
  {
    if skip < 0 then Err(NegativeSkip)
    else if skip >= |ordered| then Ok([])
    else Ok(ordered[skip..Min(skip + PageSize, |ordered|)])
  }

  /** getRelationshipPage with the skip computed without overflow. */
  function Page(ordered: seq<Way>, pageNumber: int32): (r: Result<seq<Way>, PageError>)
    ensures r.Ok? <==> pageNumber >= 0
    ensures r.Ok? ==> |r.value| == Min(PageSize, Max(0, |ordered| - pageNumber as int * PageSize))
    ensures r.Ok? ==> forall i :: 0 <= i < |r.value| ==> r.value[i] == ordered[pageNumber as int * PageSize + i]
  {
    SkipLimit(ordered, StartIndex(pageNumber))
  }

  /** getRelationshipPage as written: SKIP the wrapped product, LIMIT 5000. */
  function PageAsWritten(ordered: seq<Way>, pageNumber: int32): (r: Result<seq<Way>, PageError>)
    ensures r.Err? <==> StartIndexAsWritten(pageNumber) < 0
    ensures r.Ok? ==> |r.value| == Min(PageSize, Max(0, |ordered| - StartIndexAsWritten(pageNumber)))
    ensures r.Ok? ==> forall i :: 0 <= i < |r.value| ==> r.value[i] == ordered[StartIndexAsWritten(pageNumber) + i]
  {
    SkipLimit(ordered, StartIndexAsWritten(pageNumber))
  }

  // ---------------------------------------------------------------------------
  // The overflow at GraphDb.java:67

  /** Where the product fits in an `int`, the code pages correctly. */
  lemma AsWrittenAgreesInRange(ordered: seq<Way>, pageNumber: int32)
    requires -LastExactPage <= pageNumber as int <= LastExactPage
    ensures StartIndexAsWritten(pageNumber) == StartIndex(pageNumber)
    ensures PageAsWritten(ordered, pageNumber) == Page(ordered, pageNumber)
  {
  }

  /** The first page number past the range: the skip wraps negative and the query fails. */
  lemma AsWrittenFailsPastRange(ordered: seq<Way>)
    ensures StartIndexAsWritten((LastExactPage + 1) as int32) == -2147482296
    ensures PageAsWritten(ordered, (LastExactPage + 1) as int32).Err?
    ensures Page(ordered, (LastExactPage + 1) as int32).Ok?
  {
  }

  /** Page 858994 wraps to skip 2704: on 3000 relationships it returns the tail of
      the first page instead of an empty page. */
  lemma AsWrittenReturnsEarlierRows(ordered: seq<Way>)
    requires |ordered| == 3000
    ensures StartIndexAsWritten(858994) == 2704
    ensures PageAsWritten(ordered, 858994) == Ok(ordered[2704..])
    ensures Page(ordered, 858994) == Ok([])
  {
    assert (858994 * PageSize) % 0x1_0000_0000 == 2704;
    assert ordered[2704..Min(2704 + PageSize, 3000)] == ordered[2704..];
  }

  // ---------------------------------------------------------------------------
  // Paging

  /** A page is a contiguous slice of the scan order, and so is itself in
      descending osm_id order without duplicates. */
  lemma PageIsOrderedSlice(ordered: seq<Way>, pageNumber: int32)
    requires NoDuplicates(ordered) && DescendingByOsmId(ordered) && pageNumber >= 0
    ensures Page(ordered, pageNumber).Ok?
    ensures Page(ordered, pageNumber).value
            == ordered[Min(StartIndex(pageNumber), |ordered|)..Min(StartIndex(pageNumber) + PageSize, |ordered|)]
    ensures NoDuplicates(Page(ordered, pageNumber).value)
    ensures DescendingByOsmId(Page(ordered, pageNumber).value)
  {
  }

  /** Different pages share no relationship. Like every paging lemma here, this
      assumes every page query returns the same total order; if ties in osm_id are
      broken differently between queries, pages can repeat or miss relationships. */
  lemma PagesDisjoint(ordered: seq<Way>, p: int32, q: int32)
    requires NoDuplicates(ordered) && 0 <= p < q
    ensures forall w :: w in Page(ordered, p).value ==> w !in Page(ordered, q).value
  {
  }

  /** The concatenation of pages 0 .. k-1, as a caller scanning upward collects them. */
  function Scan(ordered: seq<Way>, k: nat): seq<Way>
    requires k <= 0x8000_0000
  {
    if k == 0 then [] else Scan(ordered, k - 1) + Page(ordered, (k - 1) as int32).value
  }

  /** Pages 0 .. k-1 together are exactly the first k*5000 relationships of the scan. */
  lemma {:induction false} ScanIsPrefix(ordered: seq<Way>, k: nat)
    requires k <= 0x8000_0000
    ensures Scan(ordered, k) == ordered[..Min(k * PageSize, |ordered|)]
  {
    if k > 0 {
      ScanIsPrefix(ordered, k - 1);
      var before := Min((k - 1) * PageSize, |ordered|);
      var after := Min(k * PageSize, |ordered|);
      var page := Page(ordered, (k - 1) as int32).value;
      assert page == ordered[before..after];
      assert ordered[..before] + ordered[before..after] == ordered[..after];
    }
  }

  /** The number of pages a full scan needs. */
  function PagesNeeded(n: nat): nat {
    (n + PageSize - 1) / PageSize
  }

  /** A full scan: pages 0 .. PagesNeeded-1 return every relationship of the graph
      exactly once, in order, and the next page is the first empty one. The paging
      lemmas assume every page query returns the same total order; if ties in
      osm_id are broken differently between queries, pages can repeat or miss
      relationships. */
  lemma FullScan(graph: set<Way>, ordered: seq<Way>)
    requires IsScanOrder(graph, ordered) && |ordered| <= PageSize * 0x7fff_ffff
    ensures PagesNeeded(|ordered|) < 0x8000_0000
    ensures Scan(ordered, PagesNeeded(|ordered|)) == ordered
    ensures |Scan(ordered, PagesNeeded(|ordered|))| == |graph|
    ensures Page(ordered, PagesNeeded(|ordered|) as int32) == Ok([])
    ensures forall p: int32 :: 0 <= p as int < PagesNeeded(|ordered|) ==> Page(ordered, p).value != []
  {
    var k := PagesNeeded(|ordered|);
    assert k * PageSize >= |ordered|;
    ScanIsPrefix(ordered, k);
    DistinctCount(ordered);
  }

  /** The test fixture: 676 relationships fit on page 0, and page 1 is empty. */
  lemma FixturePages(graph: set<Way>, ordered: seq<Way>)
    requires IsScanOrder(graph, ordered) && |graph| == 676
    ensures Page(ordered, 0) == Ok(ordered)
    ensures Page(ordered, 1) == Ok([])
  {
    DistinctCount(ordered);
    assert |ordered| == 676;
    assert ordered[0..Min(PageSize, 676)] == ordered;
  }

  // ---------------------------------------------------------------------------
  // Counting

  /** The rows the store answers to "COUNT(DISTINCT(r)) AS total": one row, the
      number of distinct relationships. */
  function CountQueryRows(graph: set<Way>): seq<int> {
    [|graph|]
  }

  /** getRelationshipCount: read every row, keeping the `total` of the last one;
      0 when there are no rows. */
  method RelationshipCount(rows: seq<int>) returns (count: int)
    ensures rows == [] ==> count == 0
    ensures rows != [] ==> count == rows[|rows| - 1]
  {
    count := 0;
    var i := 0;
    while i < |rows|
      invariant 0 <= i <= |rows|
      invariant count == if i == 0 then 0 else rows[i - 1]
    {
      count := rows[i];
      i := i + 1;
    }
  }

  /** The count read from the store's answer equals the number of relationships a
      full scan of the pages returns. */
  lemma CountMatchesFullScan(graph: set<Way>, ordered: seq<Way>)
    requires IsScanOrder(graph, ordered) && |ordered| <= PageSize * 0x7fff_ffff
    ensures CountQueryRows(graph) != []
    ensures PagesNeeded(|ordered|) < 0x8000_0000
    ensures CountQueryRows(graph)[|CountQueryRows(graph)| - 1] == |Scan(ordered, PagesNeeded(|ordered|))|
  {
    FullScan(graph, ordered);
  }
}
