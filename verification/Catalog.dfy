/** The resource catalog: a sorted array that behaves as a finite map from id to record. */
module Catalog {
  import opened Words

  const MAX_RESOURCES: nat := 1024

  datatype Record = Record(id: u64, key: u64, lastSeen: u32, status: u16, syncFlags: u16, desired: u32, reported: u32)

  predicate Sorted(s: seq<Record>) {
    forall i, j :: 0 <= i < j < |s| ==> s[i].id < s[j].id
  }

  /** The number of records whose id is below `id`: where `id` is, or belongs. */
  function Position(s: seq<Record>, id: u64): (p: nat)
    ensures p <= |s|
  {
    if s == [] || s[0].id >= id then 0 else 1 + Position(s[1..], id)
  }

  predicate Holds(s: seq<Record>, id: u64) {
    Position(s, id) < |s| && s[Position(s, id)].id == id
  }

  function Inserted(s: seq<Record>, r: Record): seq<Record> {
    var p := Position(s, r.id);
    if Holds(s, r.id) then s[p := r]
    else if |s| >= MAX_RESOURCES then s
    else s[..p] + [r] + s[p..]
  }

  function Removed(s: seq<Record>, id: u64): seq<Record> {
    var p := Position(s, id);
    if Holds(s, id) then s[..p] + s[p + 1..] else s
  }

  function Desired(s: seq<Record>, id: u64, v: u32): seq<Record> {
    var p := Position(s, id);
    if Holds(s, id) then s[p := s[p].(desired := v)] else s
  }

  function Reported(s: seq<Record>, id: u64, v: u32): seq<Record> {
    var p := Position(s, id);
    if Holds(s, id) then s[p := s[p].(reported := v)] else s
  }

  // ---------------------------------------------------------------------------
  // Sorted sequences and the maps they stand for
  // ---------------------------------------------------------------------------

  lemma {:induction false} PositionIs(s: seq<Record>, id: u64, k: nat)
    requires Sorted(s) && k <= |s|
    requires k > 0 ==> s[k - 1].id < id
    requires k < |s| ==> id <= s[k].id
    ensures Position(s, id) == k
  {
    if k > 0 {
      assert s[0].id <= s[k - 1].id;
      PositionIs(s[1..], id, k - 1);
    }
  }

  lemma {:induction false} PositionSplits(s: seq<Record>, id: u64)
    requires Sorted(s)
    ensures forall i :: 0 <= i < Position(s, id) ==> s[i].id < id
    ensures forall i :: Position(s, id) <= i < |s| ==> id <= s[i].id
  {
    if s != [] && s[0].id < id {
      PositionSplits(s[1..], id);
      forall i | 0 <= i < Position(s, id) ensures s[i].id < id {
        if i > 0 { assert s[i] == s[1..][i - 1]; }
      }
      forall i | Position(s, id) <= i < |s| ensures id <= s[i].id {
        assert s[i] == s[1..][i - 1];
      }
    }
  }

  /** Every record sits at its id's position. */
  lemma AtPosition(s: seq<Record>, i: nat)
    requires Sorted(s) && i < |s|
    ensures Position(s, s[i].id) == i && Holds(s, s[i].id)
  {
    PositionIs(s, s[i].id, i);
  }

  /** An id is held exactly when some record has it. */
  lemma HoldsMeans(s: seq<Record>, id: u64)
    requires Sorted(s)
    ensures Holds(s, id) <==> exists r :: r in s && r.id == id
  {
    if r :| r in s && r.id == id {
      var i :| 0 <= i < |s| && s[i] == r;
      AtPosition(s, i);
    }
    hide Position;
    if Holds(s, id) { assert s[Position(s, id)] in s; }
  }

  ghost function ToMap(s: seq<Record>): map<u64, Record> {
    if s == [] then map[] else ToMap(s[1..])[s[0].id := s[0]]
  }

  /** The map of a sorted sequence has exactly its records as entries. */
  lemma {:induction false} MapEntries(s: seq<Record>)
    requires Sorted(s)
    ensures forall r :: r in s ==> r.id in ToMap(s) && ToMap(s)[r.id] == r
    ensures forall id :: id in ToMap(s) ==> ToMap(s)[id] in s && ToMap(s)[id].id == id
    ensures |ToMap(s)| == |s|
  {
    if s != [] {
      var t := s[1..];
      MapEntries(t);
      assert s[0].id !in ToMap(t) by {
        assert forall i :: 0 <= i < |t| ==> t[i] == s[i + 1];
      }
      forall r | r in s ensures r.id in ToMap(s) && ToMap(s)[r.id] == r {
        if r != s[0] { assert r in t; }
      }
    }
  }

  /** A map whose entries are exactly the records of a sorted sequence is its map. */
  lemma MapByEntries(s: seq<Record>, m: map<u64, Record>)
    requires Sorted(s)
    requires forall r :: r in s ==> r.id in m && m[r.id] == r
    requires forall id :: id in m ==> m[id] in s && m[id].id == id
    ensures ToMap(s) == m
  {
    MapEntries(s);
    hide ToMap, Sorted;
    forall id | id in m ensures id in ToMap(s) && ToMap(s)[id] == m[id] {
      assert m[id] in s;
    }
    forall id | id in ToMap(s) ensures id in m {
      assert ToMap(s)[id] in s;
    }
  }

  lemma {:induction false} SortedUnique(s: seq<Record>, t: seq<Record>)
    requires Sorted(s) && Sorted(t)
    requires forall r :: r in s <==> r in t
    ensures s == t
  {
    assert t != [] ==> t[0] in s;
    if s != [] {
      assert s[0] in t;
      assert t[0] in s;
      assert s[0] == t[0];
      forall r ensures r in s[1..] <==> r in t[1..] {
        TailMembers(s, r);
        TailMembers(t, r);
      }
      SortedUnique(s[1..], t[1..]);
    }
  }

  lemma TailMembers(s: seq<Record>, r: Record)
    requires Sorted(s) && s != []
    ensures r in s[1..] <==> r in s && r != s[0]
  {
    if r in s && r != s[0] {
      var i :| 0 <= i < |s| && s[i] == r;
      assert s[1..][i - 1] == r;
    }
  }

  /** A map is held by only one sorted sequence. */
  lemma Canonical(s: seq<Record>, t: seq<Record>)
    requires Sorted(s) && Sorted(t) && ToMap(s) == ToMap(t)
    ensures s == t
  {
    MapEntries(s);
    MapEntries(t);
    hide ToMap, Sorted;
    forall r ensures r in s <==> r in t {
      if r in s { assert ToMap(t)[r.id] in t; }
      if r in t { assert ToMap(s)[r.id] in s; }
    }
    SortedUnique(s, t);
  }

  /** What the catalog promises: a map with a bounded number of entries. */
  datatype Edit =
    | Insert(record: Record)
    | Remove(id: u64)
    | SetDesired(id: u64, value: u32)
    | SetReported(id: u64, value: u32)

  function EditSeq(s: seq<Record>, e: Edit): seq<Record> {
    match e
    case Insert(r) => Inserted(s, r)
    case Remove(id) => Removed(s, id)
    case SetDesired(id, v) => Desired(s, id, v)
    case SetReported(id, v) => Reported(s, id, v)
  }

  function EditMap(m: map<u64, Record>, e: Edit): map<u64, Record> {
    match e
    case Insert(r) => if r.id in m || |m| < MAX_RESOURCES then m[r.id := r] else m
    case Remove(id) => m - {id}
    case SetDesired(id, v) => if id in m then m[id := m[id].(desired := v)] else m
    case SetReported(id, v) => if id in m then m[id := m[id].(reported := v)] else m
  }

  lemma HoldsIsMembership(s: seq<Record>, id: u64)
    requires Sorted(s)
    ensures Holds(s, id) <==> id in ToMap(s)
    ensures Holds(s, id) ==> ToMap(s)[id] == s[Position(s, id)]
  {
    MapEntries(s);
    if id in ToMap(s) {
      var i :| 0 <= i < |s| && s[i] == ToMap(s)[id];
      AtPosition(s, i);
    }
    hide ToMap, Sorted;
    if Holds(s, id) { assert s[Position(s, id)] in s; }
  }

  lemma SortedJoin(a: seq<Record>, b: seq<Record>)
    requires Sorted(a) && Sorted(b)
    requires forall x, y :: x in a && y in b ==> x.id < y.id
    ensures Sorted(a + b)
  {
    forall i, j | 0 <= i < j < |a + b| ensures (a + b)[i].id < (a + b)[j].id {
      if i < |a| <= j { assert a[i] in a && b[j - |a|] in b; }
    }
  }

  /** A sorted sequence around the place of `id`: what is below, and what is not. */
  lemma Around(s: seq<Record>, id: u64)
    requires Sorted(s)
    ensures var p := Position(s, id); Sorted(s[..p]) && Sorted(s[p..])
    ensures forall x :: x in s[..Position(s, id)] ==> x.id < id
    ensures forall x :: x in s[Position(s, id)..] ==> id <= x.id
  {
    PositionSplits(s, id);
    hide Position;
    assert forall i :: 0 <= i < |s[Position(s, id)..]| ==> s[Position(s, id)..][i] == s[Position(s, id) + i];
  }

  /** When the id is held, everything after its record is above it. */
  lemma Above(s: seq<Record>, id: u64)
    requires Sorted(s) && Holds(s, id)
    ensures var p := Position(s, id); Sorted(s[p + 1..]) && forall x :: x in s[p + 1..] ==> id < x.id
  {
    hide Position;
    var p := Position(s, id);
    var above := s[p + 1..];
    assert forall i :: 0 <= i < |above| ==> above[i] == s[p + 1 + i];
  }

  lemma SplitMembers(s: seq<Record>, p: nat)
    requires p <= |s|
    ensures forall q :: q in s ==> q in s[..p] || q in s[p..]
    ensures p < |s| ==> forall q :: q in s ==> q in s[..p] || q == s[p] || q in s[p + 1..]
  {
    assert s == s[..p] + s[p..];
    if p < |s| { assert s[p..] == [s[p]] + s[p + 1..]; }
  }

  /** Putting a record at the place of its id, after cutting out what was there. */
  lemma PutAt(s: seq<Record>, r: Record, below: seq<Record>, above: seq<Record>)
    requires Sorted(s) && Sorted(below) && Sorted(above)
    requires forall x :: x in below ==> x.id < r.id
    requires forall x :: x in above ==> r.id < x.id
    requires forall q :: q in s ==> q.id == r.id || q in below || q in above
    requires (forall q :: q in below ==> q in s) && (forall q :: q in above ==> q in s)
    ensures Sorted(below + [r] + above) && ToMap(below + [r] + above) == ToMap(s)[r.id := r]
    ensures Sorted(below + above) && ToMap(below + above) == ToMap(s) - {r.id}
  {
    MapEntries(s);
    SortedJoin(below, [r]);
    SortedJoin(below + [r], above);
    SortedJoin(below, above);
    hide ToMap, Sorted;
    MapByEntries(below + [r] + above, ToMap(s)[r.id := r]);
    MapByEntries(below + above, ToMap(s) - {r.id});
  }

  /** Overwriting the record at an id's place overwrites the map's entry; cutting it out removes the entry. */
  lemma HeldMap(s: seq<Record>, r: Record)
    requires Sorted(s) && Holds(s, r.id)
    ensures var p := Position(s, r.id);
            && Sorted(s[p := r]) && ToMap(s[p := r]) == ToMap(s)[r.id := r]
            && Sorted(s[..p] + s[p + 1..]) && ToMap(s[..p] + s[p + 1..]) == ToMap(s) - {r.id}
  {
    Around(s, r.id);
    Above(s, r.id);
    var p := Position(s, r.id);
    SplitMembers(s, p);
    hide ToMap, Sorted, Position;
    PutAt(s, r, s[..p], s[p + 1..]);
    assert s[p := r] == s[..p] + [r] + s[p + 1..];
  }

  /** Splicing in a record with a new id adds a map entry. */
  lemma NewMap(s: seq<Record>, r: Record)
    requires Sorted(s) && !Holds(s, r.id)
    ensures var p := Position(s, r.id);
            Sorted(s[..p] + [r] + s[p..]) && ToMap(s[..p] + [r] + s[p..]) == ToMap(s)[r.id := r]
  {
    Around(s, r.id);
    HoldsIsMembership(s, r.id);
    MapEntries(s);
    var p := Position(s, r.id);
    SplitMembers(s, p);
    hide ToMap, Sorted, Position;
    PutAt(s, r, s[..p], s[p..]);
  }

  /**
   * The sorted array refines the bounded map, edit by edit: it stays sorted and within capacity, and
   * an insertion is refused exactly when the id is new and the catalog is full.
   */
  lemma EditRefines(s: seq<Record>, e: Edit)
    requires Sorted(s) && |s| <= MAX_RESOURCES
    ensures Sorted(EditSeq(s, e)) && |EditSeq(s, e)| <= MAX_RESOURCES
    ensures ToMap(EditSeq(s, e)) == EditMap(ToMap(s), e)
  {
    hide ToMap, Sorted, Position;
    MapEntries(s);
    match e
    case Insert(r) =>
      HoldsIsMembership(s, r.id);
      if Holds(s, r.id) { HeldMap(s, r); } else { NewMap(s, r); }
    case Remove(id) =>
      HoldsIsMembership(s, id);
      if Holds(s, id) { HeldMap(s, s[Position(s, id)]); }
    case SetDesired(id, v) =>
      HoldsIsMembership(s, id);
      if Holds(s, id) { HeldMap(s, s[Position(s, id)].(desired := v)); }
    case SetReported(id, v) =>
      HoldsIsMembership(s, id);
      if Holds(s, id) { HeldMap(s, s[Position(s, id)].(reported := v)); }
  }

  function RunSeq(s: seq<Record>, edits: seq<Edit>): seq<Record>
    decreases |edits|
  {
    if edits == [] then s else RunSeq(EditSeq(s, edits[0]), edits[1..])
  }

  function RunMap(m: map<u64, Record>, edits: seq<Edit>): map<u64, Record>
    decreases |edits|
  {
    if edits == [] then m else RunMap(EditMap(m, edits[0]), edits[1..])
  }

  lemma {:induction false} RunRefines(s: seq<Record>, edits: seq<Edit>)
    requires Sorted(s) && |s| <= MAX_RESOURCES
    ensures Sorted(RunSeq(s, edits)) && |RunSeq(s, edits)| <= MAX_RESOURCES
    ensures ToMap(RunSeq(s, edits)) == RunMap(ToMap(s), edits)
    decreases |edits|
  {
    if edits != [] {
      EditRefines(s, edits[0]);
      RunRefines(EditSeq(s, edits[0]), edits[1..]);
    }
  }

  class RecordPool {
    const pool: array<Record>
    var count: nat

    ghost predicate Valid()
      reads this, pool
    {
      pool.Length == MAX_RESOURCES && count <= MAX_RESOURCES && Sorted(View())
    }

    ghost function View(): seq<Record>
      reads this, pool
    {
      if count <= pool.Length then pool[..count] else []
    }

    constructor ()
      ensures Valid() && View() == [] && fresh(pool)
    {
      pool := new Record[MAX_RESOURCES](_ => Record(0, 0, 0, 0, 0, 0, 0));
      count := 0;
    }

    method FindIndex(id: u64) returns (idx: int)
      requires Valid()
      ensures idx == if Holds(View(), id) then Position(View(), id) else -1
    {
      var low, high := 0, count - 1;
      while low <= high
        invariant 0 <= low <= high + 1 <= count
        invariant forall i :: 0 <= i < low ==> pool[i].id < id
        invariant forall i :: high < i < count ==> id < pool[i].id
      {
        var mid := low + (high - low) / 2;
        if pool[mid].id == id {
          PositionIs(View(), id, mid);
          return mid;
        }
        if pool[mid].id < id {
          low := mid + 1;
        } else {
          high := mid - 1;
        }
      }
      PositionIs(View(), id, low);
      idx := -1;
    }

    method FindInsertionIndex(id: u64) returns (idx: nat)
      requires Valid()
      ensures idx == Position(View(), id)
    {
      var low, high := 0, count - 1;
      while low <= high
        invariant 0 <= low <= high + 1 <= count
        invariant forall i :: 0 <= i < low ==> pool[i].id < id
        invariant forall i :: high < i < count ==> id < pool[i].id
      {
        var mid := low + (high - low) / 2;
        if pool[mid].id == id {
          PositionIs(View(), id, mid);
          return mid;
        }
        if pool[mid].id < id {
          low := mid + 1;
        } else {
          high := mid - 1;
        }
      }
      PositionIs(View(), id, low);
      idx := low;
    }

    /** The `memmove` that opens a slot at `idx`. */
    method MoveUp(idx: nat)
      requires idx <= count < pool.Length
      modifies pool
      ensures pool[..idx] == old(pool[..idx]) && pool[idx + 1..count + 1] == old(pool[idx..count])
    {
      forall k | idx < k <= count { pool[k] := pool[k - 1]; }
    }

    /** The `memmove` that closes the slot at `idx`. */
    method MoveDown(idx: nat)
      requires idx < count <= pool.Length
      modifies pool
      ensures pool[..idx] == old(pool[..idx]) && pool[idx..count - 1] == old(pool[idx + 1..count])
    {
      forall k | idx <= k < count - 1 { pool[k] := pool[k + 1]; }
    }

    method SpliceIn(idx: nat, r: Record)
      requires idx <= count < pool.Length
      modifies this`count, pool
      ensures count == old(count) + 1 && View() == old(View()[..idx] + [r] + View()[idx..])
    {
      ghost var s := View();
      MoveUp(idx);
      assert pool[..idx] == s[..idx] && pool[idx + 1..count + 1] == s[idx..];
      pool[idx] := r;
      count := count + 1;
      assert pool[..count] == pool[..idx] + [pool[idx]] + pool[idx + 1..count];
    }

    method CutOut(idx: nat)
      requires idx < count <= pool.Length
      modifies this`count, pool
      ensures count == old(count) - 1 && View() == old(View()[..idx] + View()[idx + 1..])
    {
      ghost var s := View();
      if idx < count - 1 {
        MoveDown(idx);
      }
      count := count - 1;
      assert pool[..idx] == s[..idx] && pool[idx..count] == s[idx + 1..];
      assert pool[..count] == pool[..idx] + pool[idx..count];
    }

    method Insert(r: Record) returns (ok: bool)
      requires Valid()
      modifies this`count, pool
      ensures Valid() && View() == Inserted(old(View()), r)
      ensures ok <==> Holds(old(View()), r.id) || |old(View())| < MAX_RESOURCES
    {
      ghost var s := View();
      EditRefines(s, Edit.Insert(r));
      hide Sorted, Position;
      var idx := FindInsertionIndex(r.id);
      if idx < count && pool[idx].id == r.id {
        pool[idx] := r;
        assert pool[..count] == s[idx := r];
        return true;
      }
      if count >= MAX_RESOURCES {
        return false;
      }
      SpliceIn(idx, r);
      ok := true;
    }

    method Find(id: u64) returns (found: bool, r: Record)
      requires Valid()
      ensures found == (id in ToMap(View()))
      ensures found ==> r == ToMap(View())[id]
    {
      HoldsIsMembership(View(), id);
      var idx := FindIndex(id);
      found := idx != -1;
      r := if found then pool[idx] else Record(0, 0, 0, 0, 0, 0, 0);
    }

    method GetByIndex(index: nat) returns (found: bool, r: Record)
      requires Valid()
      ensures Valid() && View() == old(View())
      ensures found == (index < |View()|)
      ensures found ==> r == View()[index]
    {
      found := index < count;
      r := if found then pool[index] else Record(0, 0, 0, 0, 0, 0, 0);
    }

    method Size() returns (n: nat)
      requires Valid()
      ensures Valid() && View() == old(View()) && n == |View()|
    {
      n := count;
    }

    method UpdateDesired(id: u64, v: u32) returns (ok: bool)
      requires Valid()
      modifies pool
      ensures Valid() && View() == Desired(old(View()), id, v) && ok == Holds(old(View()), id)
    {
      ghost var s := View();
      EditRefines(s, SetDesired(id, v));
      hide Sorted, Position;
      var idx := FindIndex(id);
      if idx == -1 {
        return false;
      }
      pool[idx] := pool[idx].(desired := v);
      assert pool[..count] == s[idx := pool[idx]];
      ok := true;
    }

    method UpdateReported(id: u64, v: u32) returns (ok: bool)
      requires Valid()
      modifies pool
      ensures Valid() && View() == Reported(old(View()), id, v) && ok == Holds(old(View()), id)
    {
      ghost var s := View();
      EditRefines(s, SetReported(id, v));
      hide Sorted, Position;
      var idx := FindIndex(id);
      if idx == -1 {
        return false;
      }
      pool[idx] := pool[idx].(reported := v);
      assert pool[..count] == s[idx := pool[idx]];
      ok := true;
    }

    method RemoveRecord(id: u64) returns (ok: bool)
      requires Valid()
      modifies this`count, pool
      ensures Valid() && View() == Removed(old(View()), id) && ok == Holds(old(View()), id)
    {
      ghost var s := View();
      EditRefines(s, Remove(id));
      hide Sorted, Position;
      var idx := FindIndex(id);
      if idx == -1 {
        return false;
      }
      CutOut(idx);
      ok := true;
    }

    /** Copy the first records out; `copied` replaces the caller's capacity. */
    method Snapshot(out: array<Record>, capacity: nat) returns (copied: nat)
      requires Valid() && capacity <= out.Length && out != pool
      modifies out
      ensures copied == (if capacity < |View()| then capacity else |View()|)
      ensures Valid() && View() == old(View()) && out[..copied] == View()[..copied]
      ensures out[copied..] == old(out[copied..])
    {
      copied := if capacity < count then capacity else count;
      forall k | 0 <= k < copied { out[k] := pool[k]; }
    }
  }
}
