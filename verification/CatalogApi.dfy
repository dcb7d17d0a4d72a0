/** The paged NDJSON listing of the catalog: one cursor request, and whole walks of a changing catalog. */
module CatalogApi {
  import opened Words
  import opened Catalog
  import opened CatalogText

  const BUFFER: nat := 512

  function Join(chunks: seq<string>): string {
    if chunks == [] then "" else Join(chunks[..|chunks| - 1]) + chunks[|chunks| - 1]
  }

  predicate WholeLines(chunk: string) {
    0 < |chunk| <= BUFFER && chunk[|chunk| - 1] == '\n'
  }

  // ---------------------------------------------------------------------------
  // Pages
  // ---------------------------------------------------------------------------

  /** Where a listing after `after` starts: past its record, or at the beginning if it is 0 or gone. */
  function Start(s: seq<Record>, after: u64): (k: nat)
    ensures k <= |s|
  {
    if after != 0 && Holds(s, after) then Position(s, after) + 1 else 0
  }

  function Slice(s: seq<Record>, k: nat, limit: u16): seq<Record>
    requires k <= |s|
  {
    if k + limit < |s| then s[k..k + limit] else s[k..]
  }

  function Page(s: seq<Record>, after: u64, limit: u16): seq<Record> {
    Slice(s, Start(s, after), limit)
  }

  function LastId(page: seq<Record>): u64 {
    if page == [] then 0 else page[|page| - 1].id
  }

  /** `v3_api_stream_catalog_ndjson`; `chunks` is what the sink receives, in order. */
  method StreamCatalog(catalog: RecordPool, after: u64, limit: u16) returns (chunks: seq<string>, last: u64)
    requires catalog.Valid()
    ensures catalog.Valid() && catalog.View() == old(catalog.View())
    ensures Join(chunks) == Lines(Page(catalog.View(), after, limit))
    ensures ReadPage(Join(chunks)) == Listings(Page(catalog.View(), after, limit))
    ensures forall c :: c in chunks ==> WholeLines(c)
    ensures last == LastId(Page(catalog.View(), after, limit))
  {
    var start := FindStart(catalog, after);
    PageSlice(catalog.View(), after, limit);
    chunks, last := StreamFrom(catalog, start, limit);
    PageReadsBack(Page(catalog.View(), after, limit));
    hide *;
  }

  /** The emission loop, from position `start` on. */
  method StreamFrom(catalog: RecordPool, start: nat, limit: u16) returns (chunks: seq<string>, last: u64)
    requires catalog.Valid() && start <= |catalog.View()|
    ensures catalog.Valid() && catalog.View() == old(catalog.View())
    ensures var page := Slice(catalog.View(), start, limit);
            Join(chunks) == Lines(page) && last == LastId(page) && forall c :: c in chunks ==> WholeLines(c)
  {
    hide Sorted, Lines, Join, Line, RecordPool.Valid;
    ghost var s := catalog.View();
    var total := catalog.Size();
    var buf := new char[BUFFER](_ => ' ');
    var pos: nat := 0;
    last, chunks := 0, [];
    var i := start;
    EmptyBuffer(buf);
    while i < total && i < start + limit
      invariant start <= i <= total && total == |s| && i <= start + limit
      invariant catalog.Valid() && catalog.View() == s
      invariant last == LastId(s[start..i]) && fresh(buf)
      invariant Buffered(chunks, buf, pos, s[start..i])
    {
      hide Buffered;
      var _, r := catalog.GetByIndex(i);
      assert s[start..i + 1] == s[start..i] + [r];
      pos, chunks := Emit(chunks, buf, pos, s[start..i], r);
      last := r.id;
      i := i + 1;
    }
    assert s[start..i] == Slice(s, start, limit);
    if pos > 0 {
      JoinNext(chunks, buf[..pos]);
      chunks := chunks + [buf[..pos]];
    } else {
      assert Join(chunks) + buf[..pos] == Join(chunks);
    }
  }

  lemma EmptyBuffer(buf: array<char>)
    requires buf.Length == BUFFER
    ensures Buffered([], buf, 0, [])
  {
  }

  lemma PageSlice(s: seq<Record>, after: u64, limit: u16)
    ensures Page(s, after, limit) == Slice(s, Start(s, after), limit)
  {
  }

  /** The chunks sent and the buffer together hold the lines of `page`, broken only at line ends. */
  ghost predicate Buffered(chunks: seq<string>, buf: array<char>, pos: nat, page: seq<Record>)
    reads buf
  {
    && buf.Length == BUFFER && pos <= BUFFER
    && Join(chunks) + buf[..pos] == Lines(page)
    && (forall c :: c in chunks ==> WholeLines(c))
    && (pos > 0 ==> buf[pos - 1] == '\n')
  }

  /** Send the buffer first if the line might not fit, then add the line. */
  method Emit(chunks: seq<string>, buf: array<char>, pos: nat, ghost page: seq<Record>, r: Record)
    returns (pos': nat, chunks': seq<string>)
    requires Buffered(chunks, buf, pos, page)
    modifies buf
    ensures Buffered(chunks', buf, pos', page + [r])
  {
    hide Lines, Join, Line;
    var line := Line(r);
    LineFits(r);
    LinesNext(page, r);
    pos', chunks' := pos, chunks;
    if pos + |line| >= BUFFER {
      JoinNext(chunks, buf[..pos]);
      chunks' := chunks + [buf[..pos]];
      pos' := 0;
    }
    ghost var sent := Join(chunks') + buf[..pos'];
    assert sent == Lines(page);
    Append(buf, pos', line);
    pos' := pos' + |line|;
    assert Join(chunks') + buf[..pos'] == sent + line;
    assert buf[pos' - 1] == buf[..pos'][pos' - 1];
  }

  lemma LinesNext(page: seq<Record>, r: Record)
    ensures Lines(page + [r]) == Lines(page) + Line(r)
  {
    assert (page + [r])[..|page|] == page;
  }

  lemma JoinNext(chunks: seq<string>, c: string)
    ensures Join(chunks + [c]) == Join(chunks) + c
  {
    assert (chunks + [c])[..|chunks|] == chunks;
  }

  /** `memcpy` of a line into the buffer. */
  method Append(buf: array<char>, pos: nat, line: string)
    requires pos + |line| <= buf.Length
    modifies buf
    ensures buf[..pos + |line|] == old(buf[..pos]) + line
  {
    forall k | 0 <= k < |line| { buf[pos + k] := line[k]; }
  }

  /** The cursor search: a binary search for the record of `after`. */
  method FindStart(catalog: RecordPool, after: u64) returns (start: nat)
    requires catalog.Valid()
    ensures catalog.Valid() && catalog.View() == old(catalog.View())
    ensures start == Start(catalog.View(), after)
  {
    if after == 0 {
      return 0;
    }
    ghost var s := catalog.View();
    var low, high := 0, catalog.count - 1;
    while low <= high
      invariant 0 <= low <= high + 1 <= |s| && catalog.Valid() && catalog.View() == s
      invariant forall i :: 0 <= i < low ==> s[i].id < after
      invariant forall i :: high < i < |s| ==> after < s[i].id
    {
      var mid := low + (high - low) / 2;
      var _, r := catalog.GetByIndex(mid);
      if r.id == after {
        PositionIs(s, after, mid);
        return mid + 1;
      }
      if r.id < after {
        low := mid + 1;
      } else {
        high := mid - 1;
      }
    }
    PositionIs(s, after, low);
    start := 0;
  }

  // ---------------------------------------------------------------------------
  // Walks: one request after another while the catalog changes in between
  // ---------------------------------------------------------------------------

  /** The catalog as one request finds it, and the request's limit. */
  datatype Request = Request(catalog: seq<Record>, limit: u16)

  /** The cursor after `n` requests: 0 at first, then the last id received. */
  function Cursor(walk: seq<Request>, n: nat): u64
    requires n <= |walk|
    decreases n, 0
  {
    if n == 0 then 0 else LastId(PageAt(walk, n - 1))
  }

  function PageAt(walk: seq<Request>, n: nat): seq<Record>
    requires n < |walk|
    decreases n, 1
  {
    Page(walk[n].catalog, Cursor(walk, n), walk[n].limit)
  }

  /** Everything received in the first `n` requests. */
  function Received(walk: seq<Request>, n: nat): seq<Record>
    requires n <= |walk|
  {
    if n == 0 then [] else Received(walk, n - 1) + PageAt(walk, n - 1)
  }

  predicate Has(s: seq<Record>, id: u64) {
    exists r :: r in s && r.id == id
  }

  /** A catalog a listing can page through: sorted, with nonzero ids. */
  ghost predicate Listable(s: seq<Record>) {
    Sorted(s) && forall r :: r in s ==> r.id != 0
  }

  /**
   * A walk: catalogs are listable, limits are nonzero, no page but the last is empty, and the record
   * of each cursor is still there when the cursor is used.
   */
  ghost predicate ValidWalk(walk: seq<Request>) {
    && (forall k :: 0 <= k < |walk| ==> Listable(walk[k].catalog) && walk[k].limit > 0)
    && (forall k :: 0 < k < |walk| ==> PageAt(walk, k - 1) != [] && Has(walk[k].catalog, Cursor(walk, k)))
  }

  /** Where a page lies in its catalog: everything before is at most the cursor, everything after is above. */
  lemma PageBounds(s: seq<Record>, after: u64, limit: u16) returns (k: nat, m: nat)
    requires Listable(s) && (after == 0 || Has(s, after))
    ensures k <= m <= |s| && Page(s, after, limit) == s[k..m] && m - k <= limit && (m - k < limit ==> m == |s|)
    ensures forall i :: 0 <= i < k ==> s[i].id <= after
    ensures forall i :: k <= i < |s| ==> after < s[i].id
  {
    HoldsMeans(s, after);
    PositionSplits(s, after);
    k := Start(s, after);
    m := if k + limit < |s| then k + limit else |s|;
    hide Position;
    if after == 0 { assert forall i :: 0 <= i < |s| ==> s[i] in s; }
  }

  /** `p` holds the records of `s` next above `after`: increasing, with none left out; all of them if `p` is empty. */
  ghost predicate NextAbove(s: seq<Record>, after: u64, p: seq<Record>) {
    && Sorted(p)
    && (forall r :: r in p ==> r in s && after < r.id <= LastId(p))
    && (forall r :: r in s && after < r.id && (p == [] || r.id <= LastId(p)) ==> r in p)
  }

  lemma PageIsNext(s: seq<Record>, after: u64, limit: u16)
    requires Listable(s) && limit > 0 && (after == 0 || Has(s, after))
    ensures NextAbove(s, after, Page(s, after, limit))
  {
    var k, m := PageBounds(s, after, limit);
    SliceIsNext(s, k, m, after);
    hide *;
  }

  /** A request from 0, or whose cursor's record is gone, starts over. */
  lemma PageRestarts(s: seq<Record>, after: u64, limit: u16)
    requires Sorted(s) && (after == 0 || !Has(s, after))
    ensures Page(s, after, limit) == s[..if limit < |s| then limit else |s|]
  {
    HoldsMeans(s, after);
    hide Position, Sorted;
  }

  lemma SliceIsNext(s: seq<Record>, k: nat, m: nat, after: u64)
    requires Sorted(s) && k <= m <= |s| && (m == k ==> k == |s|)
    requires (forall i :: 0 <= i < k ==> s[i].id <= after) && (forall i :: k <= i < |s| ==> after < s[i].id)
    ensures NextAbove(s, after, s[k..m])
  {
    SliceAbove(s, k, m, after);
    hide Sorted, LastId;
    forall r | r in s && after < r.id && (s[k..m] == [] || r.id <= LastId(s[k..m])) ensures r in s[k..m] {
      InSlice(s, k, m, after, r);
    }
  }

  /** A page holds `limit` records, or every record above the cursor if they are fewer. */
  lemma PageIsFull(s: seq<Record>, after: u64, limit: u16)
    requires Listable(s) && limit > 0 && (after == 0 || Has(s, after))
    ensures |Page(s, after, limit)| == limit ||
            (|Page(s, after, limit)| < limit && forall r :: r in s && after < r.id ==> r in Page(s, after, limit))
  {
    var k, m := PageBounds(s, after, limit);
    hide Page, Start, Listable;
    forall r | m == |s| && r in s && after < r.id ensures r in s[k..m] {
      var i :| 0 <= i < |s| && s[i] == r;
      assert s[k..m][i - k] == r;
    }
  }

  lemma SliceAbove(s: seq<Record>, k: nat, m: nat, after: u64)
    requires Sorted(s) && k <= m <= |s| && forall i :: k <= i < |s| ==> after < s[i].id
    ensures Sorted(s[k..m]) && forall r :: r in s[k..m] ==> r in s && after < r.id <= LastId(s[k..m])
  {
    var p := s[k..m];
    assert forall i :: 0 <= i < |p| ==> p[i] == s[k + i] && p[i].id <= p[|p| - 1].id;
  }

  lemma InSlice(s: seq<Record>, k: nat, m: nat, after: u64, r: Record)
    requires Sorted(s) && k <= m <= |s| && (m == k ==> k == |s|)
    requires (forall i :: 0 <= i < k ==> s[i].id <= after) && r in s && after < r.id
    requires s[k..m] == [] || r.id <= LastId(s[k..m])
    ensures r in s[k..m]
  {
    var i :| 0 <= i < |s| && s[i] == r;
    assert i < m by { if m > k { assert LastId(s[k..m]) == s[m - 1].id; } }
    assert s[k..m][i - k] == r;
  }

  /** The catalogs the first `n` requests saw. */
  ghost function Catalogs(walk: seq<Request>, n: nat): seq<seq<Record>>
    requires n <= |walk|
  {
    if n == 0 then [] else Catalogs(walk, n - 1) + [walk[n - 1].catalog]
  }

  ghost predicate InAll(catalogs: seq<seq<Record>>, id: u64) {
    forall c :: c in catalogs ==> Has(c, id)
  }

  /**
   * What was received is strictly increasing and at most the cursor, and contains every id up to the
   * cursor that was in all the catalogs.
   */
  ghost predicate Covers(received: seq<Record>, cursor: u64, catalogs: seq<seq<Record>>) {
    && Sorted(received)
    && (forall r :: r in received ==> r.id <= cursor)
    && (forall id: u64 :: 0 < id <= cursor && InAll(catalogs, id) ==> Has(received, id))
  }

  lemma CoversNext(before: seq<Record>, after: u64, cs: seq<seq<Record>>, s: seq<Record>, p: seq<Record>)
    requires Covers(before, after, cs) && NextAbove(s, after, p) && p != []
    ensures Covers(before + p, LastId(p), cs + [s])
  {
    assert p[|p| - 1] in p;
    SortedJoin(before, p);
    hide Sorted;
    forall id: u64 | 0 < id <= LastId(p) && InAll(cs + [s], id) ensures Has(before + p, id) {
      assert s in cs + [s] && forall c :: c in cs ==> c in cs + [s];
      if id <= after {
        assert InAll(cs, id);
        assert Has(before, id);
        var r :| r in before && r.id == id;
        assert r in before + p;
      } else {
        assert Has(s, id);
        var r :| r in s && r.id == id;
        assert r in before + p;
      }
    }
  }

  /**
   * Paging is complete under mutation: the ids received increase strictly across pages, so none comes
   * twice, and every id at or below the cursor that was in the catalog at every request was received.
   */
  lemma {:induction false} WalkIsComplete(walk: seq<Request>, n: nat)
    requires ValidWalk(walk) && n <= |walk| && (n > 0 ==> PageAt(walk, n - 1) != [])
    ensures Covers(Received(walk, n), Cursor(walk, n), Catalogs(walk, n))
  {
    if n > 0 {
      WalkIsComplete(walk, n - 1);
      hide Covers, NextAbove, Listable, Has, Page, LastId;
      CursorUsable(walk, n - 1);
      PageIsNext(walk[n - 1].catalog, Cursor(walk, n - 1), walk[n - 1].limit);
      CoversNext(Received(walk, n - 1), Cursor(walk, n - 1), Catalogs(walk, n - 1), walk[n - 1].catalog,
        PageAt(walk, n - 1));
    }
  }

  lemma CursorUsable(walk: seq<Request>, n: nat)
    requires ValidWalk(walk) && n < |walk|
    ensures Listable(walk[n].catalog) && walk[n].limit > 0
    ensures Cursor(walk, n) == 0 || Has(walk[n].catalog, Cursor(walk, n))
  {
  }

  /** When a request returns nothing the walk is over, and it skipped no id that was there throughout. */
  lemma {:induction false} WalkEndsComplete(walk: seq<Request>, id: u64)
    requires ValidWalk(walk) && walk != [] && PageAt(walk, |walk| - 1) == []
    requires id != 0 && InAll(Catalogs(walk, |walk|), id)
    ensures Has(Received(walk, |walk|), id)
  {
    var n := |walk| - 1;
    WalkIsComplete(walk, n);
    CursorUsable(walk, n);
    var cs, s, after := Catalogs(walk, n), walk[n].catalog, Cursor(walk, n);
    PageIsNext(s, after, walk[n].limit);
    assert Received(walk, |walk|) == Received(walk, n) && Catalogs(walk, |walk|) == cs + [s];
    hide Page, Sorted, Received, Catalogs, Cursor, PageAt;
    assert s in cs + [s] && forall c :: c in cs ==> c in cs + [s];
    var r :| r in s && r.id == id;
    assert r.id <= after;
  }
}
