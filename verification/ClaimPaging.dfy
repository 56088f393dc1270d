/** Keyset paging over one space's claims, in both backends, and walks over many pages.  The laws
    hold for every admission rule, so the filter is an arbitrary predicate on claims. */
module ClaimPaging {
  import opened Common
  import opened ClaimModel
  import opened Traversal
  import opened TraversalSql

  const CLAIM_PAGE_MAX_ENTRIES: nat := 64
  const CLAIM_PAGE_DEFAULT_LIMIT: nat := 32
  const QUERY_SCAN_BATCH_ROWS: nat := 256

  type Admission = Claim -> bool

  datatype Cursor = Cursor(after: Option<ClaimId>, limit: nat)

  datatype Page = Page(claims: seq<Claim>, next: Option<Cursor>)

  /** Every cursor the builders produce. */
  predicate ValidCursor(cursor: Cursor) {
    1 <= cursor.limit <= CLAIM_PAGE_MAX_ENTRIES
  }

  /** `ClaimCursor::after`. */
  function ResumeAfter(id: ClaimId): Cursor {
    Cursor(Some(id), CLAIM_PAGE_DEFAULT_LIMIT)
  }

  /** `ClaimCursor::with_limit`. */
  function WithLimit(cursor: Cursor, limit: nat): (r: Cursor)
    ensures ValidCursor(r) && r.after == cursor.after
    ensures 1 <= limit <= CLAIM_PAGE_MAX_ENTRIES ==> r.limit == limit
  {
    cursor.(limit := Clamp(limit, CLAIM_PAGE_MAX_ENTRIES))
  }

  predicate Past(id: ClaimId, after: Option<ClaimId>) {
    after.None? || after.value < id
  }

  /** The admitted claims past a position, ascending by id. */
  ghost function AdmittedAfter(claims: seq<Claim>, admits: Admission, after: Option<ClaimId>): seq<Claim> {
    if claims == [] then []
    else
      var c := claims[|claims| - 1];
      AdmittedAfter(claims[..|claims| - 1], admits, after)
      + (if Past(c.claimId, after) && admits(c) then [c] else [])
  }

  /** The page a cursor names: the next `limit` admitted claims, and where to resume when more remain. */
  ghost function PageOf(claims: seq<Claim>, admits: Admission, cursor: Cursor): Page
    requires 1 <= cursor.limit
  {
    var all := AdmittedAfter(claims, admits, cursor.after);
    if |all| <= cursor.limit then Page(all, None)
    else Page(all[..cursor.limit], Some(Cursor(Some(all[cursor.limit - 1].claimId), cursor.limit)))
  }

  lemma {:induction false} AdmittedMember(claims: seq<Claim>, admits: Admission, after: Option<ClaimId>, c: Claim)
    ensures c in AdmittedAfter(claims, admits, after) <==> c in claims && Past(c.claimId, after) && admits(c)
  {
    if claims != [] {
      AdmittedMember(claims[..|claims| - 1], admits, after, c);
      assert claims == claims[..|claims| - 1] + [claims[|claims| - 1]];
    }
  }

  lemma {:induction false} AdmittedAscending(claims: seq<Claim>, admits: Admission, after: Option<ClaimId>)
    requires InIdOrder(claims)
    ensures InIdOrder(AdmittedAfter(claims, admits, after))
  {
    if claims != [] {
      var front := claims[..|claims| - 1];
      AdmittedAscending(front, admits, after);
      var all := AdmittedAfter(front, admits, after);
      forall i | 0 <= i < |all| ensures all[i].claimId < claims[|claims| - 1].claimId {
        AdmittedMember(front, admits, after, all[i]);
      }
    }
  }

  lemma {:induction false} AdmittedPrefix(claims: seq<Claim>, admits: Admission, after: Option<ClaimId>, i: nat)
    requires i <= |claims|
    ensures AdmittedAfter(claims[..i], admits, after) <= AdmittedAfter(claims, admits, after)
    decreases |claims| - i
  {
    if i < |claims| {
      assert claims[..i + 1][..i] == claims[..i];
      AdmittedPrefix(claims, admits, after, i + 1);
    } else {
      assert claims[..i] == claims;
    }
  }

  /** One more admitted claim than fits proves the page full. */
  lemma PageFull(claims: seq<Claim>, admits: Admission, cursor: Cursor, i: nat)
    requires 1 <= cursor.limit && i < |claims|
    requires Past(claims[i].claimId, cursor.after) && admits(claims[i])
    requires |AdmittedAfter(claims[..i], admits, cursor.after)| == cursor.limit
    ensures var page := AdmittedAfter(claims[..i], admits, cursor.after);
            PageOf(claims, admits, cursor) == Page(page, Some(Cursor(Some(page[|page| - 1].claimId), cursor.limit)))
  {
    assert claims[..i + 1][..i] == claims[..i];
    AdmittedPrefix(claims, admits, cursor.after, i);
    AdmittedPrefix(claims, admits, cursor.after, i + 1);
  }

  /** `InMemoryKnowledgeGraphStore::query`. */
  method Query(claims: seq<Claim>, admits: Admission, cursor: Cursor) returns (page: Page)
    requires ValidCursor(cursor)
    ensures page == PageOf(claims, admits, cursor)
  {
    var found: seq<Claim> := [];
    for i := 0 to |claims|
      invariant found == AdmittedAfter(claims[..i], admits, cursor.after)
      invariant |found| <= cursor.limit
    {
      var claim := claims[i];
      assert claims[..i + 1][..i] == claims[..i];
      if !Past(claim.claimId, cursor.after) {
        continue;
      }
      if !admits(claim) {
        continue;
      }
      if |found| == cursor.limit {
        PageFull(claims, admits, cursor, i);
        return Page(found, Some(WithLimit(ResumeAfter(found[|found| - 1].claimId), cursor.limit)));
      }
      found := found + [claim];
    }
    assert claims[..|claims|] == claims;
    return Page(found, None);
  }

  // ----- The batch scan -----

  /** How many leading rows of an ordered table are not past a position. */
  ghost function Skipped(rows: seq<Row>, position: Option<ClaimId>): (n: nat)
    requires OrderedTable(rows)
    ensures n <= |rows|
    ensures forall k :: 0 <= k < |rows| ==> (Past(rows[k].claimId, position) <==> n <= k)
  {
    if rows == [] then 0
    else if Past(rows[|rows| - 1].claimId, position) then Skipped(rows[..|rows| - 1], position)
    else |rows|
  }

  /** `SELECT … WHERE claim_id > position ORDER BY claim_id LIMIT batch`. */
  method ScanBatch(rows: seq<Row>, position: Option<ClaimId>, batch: nat) returns (scanned: seq<Row>)
    requires OrderedTable(rows)
    ensures scanned == Take(rows[Skipped(rows, position)..], batch)
  {
    ghost var from := Skipped(rows, position);
    scanned := [];
    var i := 0;
    while i < |rows| && |scanned| < batch
      invariant i <= |rows|
      invariant scanned == if i <= from then [] else rows[from..i]
      invariant |scanned| <= batch
    {
      if Past(rows[i].claimId, position) {
        scanned := scanned + [rows[i]];
      }
      i := i + 1;
    }
    if i == |rows| {
      assert rows[from..i] == rows[from..];
    } else {
      assert rows[from..][..batch] == scanned;
    }
  }

  lemma SkippedThrough(rows: seq<Row>, i: nat)
    requires OrderedTable(rows) && i < |rows|
    ensures Skipped(rows, Some(rows[i].claimId)) == i + 1
  {
    assert !Past(rows[i].claimId, Some(rows[i].claimId));
    assert i + 1 < |rows| ==> Past(rows[i + 1].claimId, Some(rows[i].claimId));
  }

  lemma {:induction false} NoneBefore(rows: seq<Row>, admits: Admission, position: Option<ClaimId>, i: nat)
    requires OrderedTable(rows) && CoherentTable(rows) && i <= Skipped(rows, position)
    ensures AdmittedAfter(Records(rows)[..i], admits, position) == []
  {
    if i > 0 {
      assert Records(rows)[..i][..i - 1] == Records(rows)[..i - 1];
      NoneBefore(rows, admits, position, i - 1);
      assert !Past(rows[i - 1].claimId, position);
    }
  }

  /** A scan that has consumed the first `i` rows holds what those rows admit. */
  ghost predicate Scanned(rows: seq<Row>, admits: Admission, cursor: Cursor, found: seq<Claim>, i: nat) {
    && AllPast(rows, cursor.after, i)
    && |found| <= cursor.limit
    && (CoherentTable(rows) ==> found == AdmittedAfter(Records(rows)[..i], admits, cursor.after))
  }

  ghost predicate AllPast(rows: seq<Row>, position: Option<ClaimId>, i: nat) {
    i <= |rows| && forall k :: i <= k < |rows| ==> Past(rows[k].claimId, position)
  }

  lemma ScanStart(rows: seq<Row>, admits: Admission, cursor: Cursor)
    requires OrderedTable(rows)
    ensures Scanned(rows, admits, cursor, [], Skipped(rows, cursor.after))
  {
    if CoherentTable(rows) {
      NoneBefore(rows, admits, cursor.after, Skipped(rows, cursor.after));
    }
  }

  lemma ScanEnd(rows: seq<Row>, admits: Admission, cursor: Cursor, found: seq<Claim>)
    requires Scanned(rows, admits, cursor, found, |rows|) && 1 <= cursor.limit
    ensures CoherentTable(rows) ==> PageOf(Records(rows), admits, cursor) == Page(found, None)
  {
    assert Records(rows)[..|rows|] == Records(rows);
  }

  lemma ScanStep(rows: seq<Row>, admits: Admission, cursor: Cursor, found: seq<Claim>, i: nat)
    requires OrderedTable(rows) && i < |rows| && Scanned(rows, admits, cursor, found, i)
    ensures !admits(rows[i].record) ==> Scanned(rows, admits, cursor, found, i + 1)
    ensures |found| <= cursor.limit
    ensures admits(rows[i].record) && |found| < cursor.limit
            ==> Scanned(rows, admits, cursor, found + [rows[i].record], i + 1)
    ensures CoherentTable(rows) && 1 <= cursor.limit && admits(rows[i].record) && |found| == cursor.limit
            ==> PageOf(Records(rows), admits, cursor)
                == Page(found, Some(Cursor(Some(found[|found| - 1].claimId), cursor.limit)))
  {
    if CoherentTable(rows) {
      var claims := Records(rows);
      assert claims[i] == rows[i].record && Past(claims[i].claimId, cursor.after);
      assert claims[..i + 1][..i] == claims[..i];
      if 1 <= cursor.limit && admits(claims[i]) && |found| == cursor.limit {
        PageFull(claims, admits, cursor, i);
      }
    }
  }

  /** `PostgresKnowledgeGraphStore::query`: batches of 256 rows, resumed by keyset, filtered after decoding. */
  method QuerySql(rows: seq<Row>, admits: Admission, cursor: Cursor) returns (page: Page)
    requires OrderedTable(rows) && ValidCursor(cursor)
    ensures CoherentTable(rows) ==> page == PageOf(Records(rows), admits, cursor)
  {
    hide PageOf, CoherentTable, OrderedTable, Skipped, Scanned;
    var position := cursor.after;
    var found: seq<Claim> := [];
    ghost var at := Skipped(rows, position);
    ScanStart(rows, admits, cursor);
    while true
      invariant at == Skipped(rows, position) && Scanned(rows, admits, cursor, found, at)
      decreases |rows| - at
    {
      var batch := ScanBatch(rows, position, QUERY_SCAN_BATCH_ROWS);
      var exhausted := |batch| < QUERY_SCAN_BATCH_ROWS;
      ghost var from := at;
      for k := 0 to |batch|
        invariant at == from + k && at == Skipped(rows, position)
        invariant Scanned(rows, admits, cursor, found, at)
      {
        var row := batch[k];
        ScanStep(rows, admits, cursor, found, at);
        SkippedThrough(rows, at);
        position := Some(row.claimId);
        at := at + 1;
        var claim := row.record;
        if !admits(claim) {
          continue;
        }
        if |found| == cursor.limit {
          return Page(found, Some(WithLimit(ResumeAfter(found[|found| - 1].claimId), cursor.limit)));
        }
        found := found + [claim];
      }
      if exhausted {
        break;
      }
    }
    ScanEnd(rows, admits, cursor, found);
    return Page(found, None);
  }

  // ----- Walks -----

  /** The pages of one walk: page `i` is read from `stores[i]` at limit `limits[i]`, resuming where the page
      before left off; the walk ends at the first page that has no next cursor. */
  ghost function Walk(stores: seq<seq<Claim>>, limits: seq<nat>, admits: Admission, after: Option<ClaimId>): seq<Page>
    requires |limits| == |stores| && forall i :: 0 <= i < |limits| ==> 1 <= limits[i]
  {
    if stores == [] then []
    else
      var page := PageOf(stores[0], admits, Cursor(after, limits[0]));
      [page] + (if page.next.None? then [] else Walk(stores[1..], limits[1..], admits, page.next.value.after))
  }

  ghost function Collected(pages: seq<Page>): seq<Claim> {
    if pages == [] then [] else pages[0].claims + Collected(pages[1..])
  }

  ghost predicate Finished(pages: seq<Page>) {
    pages != [] && pages[|pages| - 1].next.None?
  }

  lemma WalkGoesOn(stores: seq<seq<Claim>>, limits: seq<nat>, admits: Admission, after: Option<ClaimId>)
    requires |limits| == |stores| > 0 && forall i :: 0 <= i < |limits| ==> 1 <= limits[i]
    ensures var page := PageOf(stores[0], admits, Cursor(after, limits[0]));
            var pages := Walk(stores, limits, admits, after);
            && (page.next.None? ==> Collected(pages) == page.claims && Finished(pages))
            && (page.next.Some? ==>
                  var rest := Walk(stores[1..], limits[1..], admits, page.next.value.after);
                  Collected(pages) == page.claims + Collected(rest) && Finished(pages) == Finished(rest))
  {
    hide PageOf, Collected, Finished;
    var page := PageOf(stores[0], admits, Cursor(after, limits[0]));
    CollectedCons(page, if page.next.None? then [] else Walk(stores[1..], limits[1..], admits, page.next.value.after));
  }

  lemma CollectedCons(page: Page, rest: seq<Page>)
    ensures Collected([page] + rest) == page.claims + Collected(rest)
    ensures Collected([]) == [] && !Finished([])
    ensures Finished([page] + rest) == if rest == [] then page.next.None? else Finished(rest)
  {
    assert ([page] + rest)[1..] == rest;
  }

  /** What one page leaves for the rest of the walk. */
  lemma PageSplits(claims: seq<Claim>, admits: Admission, after: Option<ClaimId>, limit: nat)
    requires InIdOrder(claims) && 1 <= limit
    ensures var page := PageOf(claims, admits, Cursor(after, limit));
            && (page.next.None? ==> page.claims == AdmittedAfter(claims, admits, after))
            && (page.next.Some? ==>
                  && page.claims != [] && page.next.value.after == Some(page.claims[|page.claims| - 1].claimId)
                  && Past(page.claims[0].claimId, after)
                  && AdmittedAfter(claims, admits, after)
                     == page.claims + AdmittedAfter(claims, admits, page.next.value.after))
  {
    hide AdmittedAfter, InIdOrder;
    var all := AdmittedAfter(claims, admits, after);
    if limit < |all| {
      AdmittedMember(claims, admits, after, all[0]);
      AdmittedSuffix(claims, admits, after, limit);
      assert all == all[..limit] + all[limit..];
    }
  }

  /** Resuming after the `n`-th admitted claim leaves the others. */
  lemma {:induction false} AdmittedSuffix(claims: seq<Claim>, admits: Admission, after: Option<ClaimId>, n: nat)
    requires InIdOrder(claims) && 1 <= n <= |AdmittedAfter(claims, admits, after)|
    ensures var all := AdmittedAfter(claims, admits, after);
            AdmittedAfter(claims, admits, Some(all[n - 1].claimId)) == all[n..]
  {
    var all := AdmittedAfter(claims, admits, after);
    var front, c := claims[..|claims| - 1], claims[|claims| - 1];
    var before := AdmittedAfter(front, admits, after);
    var tail := if Past(c.claimId, after) && admits(c) then [c] else [];
    assert all == before + tail;
    if n <= |before| {
      AdmittedSuffix(front, admits, after, n);
      AdmittedMember(front, admits, after, before[n - 1]);
      assert all[n - 1].claimId < c.claimId && Past(all[n - 1].claimId, after);
      assert all[n..] == before[n..] + tail;
    } else {
      assert all[n - 1] == c;
      NothingPast(claims, admits, c.claimId);
    }
  }

  lemma {:induction false} NothingPast(claims: seq<Claim>, admits: Admission, last: ClaimId)
    requires forall i :: 0 <= i < |claims| ==> claims[i].claimId <= last
    ensures AdmittedAfter(claims, admits, Some(last)) == []
  {
    if claims != [] {
      NothingPast(claims[..|claims| - 1], admits, last);
    }
  }

  /** On an unchanging store a walk at any limits yields the admitted claims in id order, without gap or
      repetition, and as many pages as there are claims always finish it. */
  lemma {:induction false} WalkYieldsAdmitted(claims: seq<Claim>, limits: seq<nat>, admits: Admission, after: Option<ClaimId>)
    requires InIdOrder(claims) && forall i :: 0 <= i < |limits| ==> 1 <= limits[i]
    ensures var pages := Walk(seq(|limits|, i => claims), limits, admits, after);
            var all := AdmittedAfter(claims, admits, after);
            && Collected(pages) <= all
            && (Finished(pages) ==> Collected(pages) == all)
            && (|all| < |limits| ==> Finished(pages))
    decreases |limits|
  {
    hide PageOf, AdmittedAfter, InIdOrder, Finished;
    var stores := seq(|limits|, i => claims);
    if limits == [] {
      assert !Finished(Walk(stores, limits, admits, after)) by { EmptyUnfinished(); }
    } else {
      var page := PageOf(claims, admits, Cursor(after, limits[0]));
      PageSplits(claims, admits, after, limits[0]);
      WalkGoesOn(stores, limits, admits, after);
      if page.next.Some? {
        assert stores[1..] == seq(|limits[1..]|, i => claims);
        WalkYieldsAdmitted(claims, limits[1..], admits, page.next.value.after);
      }
    }
  }

  lemma EmptyUnfinished()
    ensures !Finished([])
  {
  }

  /** A claim with this id is stored and admitted. */
  ghost predicate Present(claims: seq<Claim>, admits: Admission, id: ClaimId) {
    exists c :: c in claims && c.claimId == id && admits(c)
  }

  /** Ascending by id, every claim admitted and past the position. */
  ghost predicate AscendsPast(found: seq<Claim>, admits: Admission, after: Option<ClaimId>) {
    && InIdOrder(found)
    && forall k :: 0 <= k < |found| ==> Past(found[k].claimId, after) && admits(found[k])
  }

  /** Whatever happens to the store between pages, a walk returns ids in strictly ascending order, all past
      its start, all admitted when read. */
  lemma {:induction false} WalkAscends(stores: seq<seq<Claim>>, limits: seq<nat>, admits: Admission, after: Option<ClaimId>)
    requires |limits| == |stores| && forall i :: 0 <= i < |limits| ==> 1 <= limits[i]
    requires forall i :: 0 <= i < |stores| ==> InIdOrder(stores[i])
    ensures AscendsPast(Collected(Walk(stores, limits, admits, after)), admits, after)
    decreases |limits|
  {
    if stores != [] {
      hide *;
      PageAscends(stores[0], admits, after, limits[0]);
      WalkGoesOn(stores, limits, admits, after);
      var page := PageOf(stores[0], admits, Cursor(after, limits[0]));
      if page.next.Some? {
        WalkAscends(stores[1..], limits[1..], admits, page.next.value.after);
        var rest := Collected(Walk(stores[1..], limits[1..], admits, page.next.value.after));
        AscendingConcat(page.claims, rest, admits, after);
      }
    }
  }

  lemma PageAscends(claims: seq<Claim>, admits: Admission, after: Option<ClaimId>, limit: nat)
    requires InIdOrder(claims) && 1 <= limit
    ensures var page := PageOf(claims, admits, Cursor(after, limit));
            && AscendsPast(page.claims, admits, after)
            && (page.next.Some? ==>
                  page.claims != [] && page.next.value.after == Some(page.claims[|page.claims| - 1].claimId))
  {
    AdmittedAscending(claims, admits, after);
    var all := AdmittedAfter(claims, admits, after);
    forall k | 0 <= k < |all| ensures Past(all[k].claimId, after) && admits(all[k]) {
      AdmittedMember(claims, admits, after, all[k]);
    }
  }

  lemma AscendingConcat(a: seq<Claim>, b: seq<Claim>, admits: Admission, after: Option<ClaimId>)
    requires AscendsPast(a, admits, after) && a != []
    requires AscendsPast(b, admits, Some(a[|a| - 1].claimId))
    ensures AscendsPast(a + b, admits, after)
  {
  }

  /** With the store changing between pages, a finished walk returns every claim that was present and admitted
      throughout, exactly once. */
  lemma WalkMissesNothing(stores: seq<seq<Claim>>, limits: seq<nat>, admits: Admission, after: Option<ClaimId>, id: ClaimId)
    requires |limits| == |stores| && forall i :: 0 <= i < |limits| ==> 1 <= limits[i]
    requires forall i :: 0 <= i < |stores| ==> InIdOrder(stores[i]) && Present(stores[i], admits, id)
    requires Past(id, after) && Finished(Walk(stores, limits, admits, after))
    ensures var found := Collected(Walk(stores, limits, admits, after));
            exists k :: 0 <= k < |found| && found[k].claimId == id
                        && forall j :: 0 <= j < |found| && found[j].claimId == id ==> j == k
  {
    hide Walk, Collected, Finished, Present;
    WalkFinds(stores, limits, admits, after, id);
    WalkAscends(stores, limits, admits, after);
    var found := Collected(Walk(stores, limits, admits, after));
    assert Holds(found, id);
  }

  ghost predicate Holds(found: seq<Claim>, id: ClaimId) {
    exists k :: 0 <= k < |found| && found[k].claimId == id
  }

  /** A present claim past the cursor is on the page, or past where the page stops. */
  lemma OnPageOrPast(claims: seq<Claim>, admits: Admission, after: Option<ClaimId>, limit: nat, id: ClaimId)
    requires InIdOrder(claims) && 1 <= limit && Present(claims, admits, id) && Past(id, after)
    ensures var page := PageOf(claims, admits, Cursor(after, limit));
            Holds(page.claims, id) || (page.next.Some? && Past(id, page.next.value.after))
  {
    hide PageOf, AdmittedAfter, InIdOrder;
    var page := PageOf(claims, admits, Cursor(after, limit));
    var c :| c in claims && c.claimId == id && admits(c);
    AdmittedMember(claims, admits, after, c);
    PageSplits(claims, admits, after, limit);
    if c !in page.claims {
      AdmittedMember(claims, admits, page.next.value.after, c);
    }
  }

  lemma HoldsConcat(a: seq<Claim>, b: seq<Claim>, id: ClaimId)
    requires Holds(a, id) || Holds(b, id)
    ensures Holds(a + b, id)
  {
    if Holds(a, id) {
      var k :| 0 <= k < |a| && a[k].claimId == id;
      assert (a + b)[k].claimId == id;
    } else {
      var k :| 0 <= k < |b| && b[k].claimId == id;
      assert (a + b)[|a| + k].claimId == id;
    }
  }

  lemma {:induction false} WalkFinds(stores: seq<seq<Claim>>, limits: seq<nat>, admits: Admission, after: Option<ClaimId>, id: ClaimId)
    requires |limits| == |stores| && forall i :: 0 <= i < |limits| ==> 1 <= limits[i]
    requires forall i :: 0 <= i < |stores| ==> InIdOrder(stores[i]) && Present(stores[i], admits, id)
    requires Past(id, after) && Finished(Walk(stores, limits, admits, after))
    ensures Holds(Collected(Walk(stores, limits, admits, after)), id)
    decreases |limits|
  {
    assert stores != [] by { EmptyUnfinished(); }
    hide *;
    OnPageOrPast(stores[0], admits, after, limits[0], id);
    WalkGoesOn(stores, limits, admits, after);
    var page := PageOf(stores[0], admits, Cursor(after, limits[0]));
    if page.next.Some? {
      var next := page.next.value.after;
      if !Holds(page.claims, id) {
        WalkFinds(stores[1..], limits[1..], admits, next, id);
      }
      HoldsConcat(page.claims, Collected(Walk(stores[1..], limits[1..], admits, next)), id);
    }
  }
}
