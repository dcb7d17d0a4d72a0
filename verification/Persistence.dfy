/** The catalog's journal: base-36 keys, a bit per record, and the flush to and restore from flash. */
module Persistence {
  import opened Words
  import opened Catalog

  // ---------------------------------------------------------------------------
  // Base-36 keys
  // ---------------------------------------------------------------------------

  function Digit(d: nat): char
    requires d < 36
  {
    if d < 10 then '0' + d as char else 'A' + (d - 10) as char
  }

  function DigitValue(c: char): nat {
    if '0' <= c <= '9' then (c - '0') as nat else if 'A' <= c <= 'Z' then (c - 'A') as nat + 10 else 0
  }

  function Key(n: nat): (k: string) {
    if n < 36 then [Digit(n)] else Key(n / 36) + [Digit(n % 36)]
  }

  function KeyValue(k: string): nat {
    if k == [] then 0 else 36 * KeyValue(k[..|k| - 1]) + DigitValue(k[|k| - 1])
  }

  lemma DigitRoundTrip(d: nat)
    requires d < 36
    ensures DigitValue(Digit(d)) == d
  {
  }

  /** Decoding a key returns the id. */
  lemma {:induction false} KeyRoundTrip(n: nat)
    ensures KeyValue(Key(n)) == n
  {
    if n < 36 {
      DigitRoundTrip(n);
      assert Key(n)[..0] == [];
    } else {
      var k := Key(n / 36);
      KeyRoundTrip(n / 36);
      DigitRoundTrip(n % 36);
      assert Key(n)[..|Key(n)| - 1] == k;
    }
  }

  /** So distinct ids have distinct keys. */
  lemma KeysDistinct(a: nat, b: nat)
    ensures Key(a) == Key(b) ==> a == b
  {
    KeyRoundTrip(a);
    KeyRoundTrip(b);
  }

  function Pow36(e: nat): nat {
    if e == 0 then 1 else 36 * Pow36(e - 1)
  }

  /** A number below 36^e has at least one digit and at most `e`. */
  lemma {:induction false} KeyLength(n: nat, e: nat)
    requires e > 0 && n < Pow36(e)
    ensures 1 <= |Key(n)| <= e
  {
    if n >= 36 {
      assert Pow36(1) == 36 * Pow36(0);
      assert n / 36 < Pow36(e - 1);
      KeyLength(n / 36, e - 1);
    }
  }

  /** Every 64-bit id has 1 to 13 digits, so the 16-byte buffer never truncates. */
  lemma IdKeyLength(id: u64)
    ensures 1 <= |Key(id)| <= 13
  {
    assert Pow36(4) == 1679616;
    assert Pow36(8) == 36 * (36 * (36 * (36 * Pow36(4))));
    assert Pow36(12) == 36 * (36 * (36 * (36 * Pow36(8))));
    assert Pow36(13) == 36 * Pow36(12);
    KeyLength(id, 13);
  }

  /** No key has a leading zero, except that of 0 itself. */
  lemma {:induction false} NoLeadingZero(n: nat)
    ensures |Key(n)| >= 1 && (Key(n)[0] == '0' <==> n == 0)
  {
    if n >= 36 { NoLeadingZero(n / 36); }
  }

  /** `get_nvs_key`: the digits are written backwards from position 14 of a 16-byte buffer. */
  method GetKey(id: u64) returns (key: string)
    ensures key == Key(id)
  {
    var buf := new char[16](_ => '\0');
    var pos := 14;
    var val: int := id;
    IdKeyLength(id);
    if val == 0 {
      buf[pos] := '0';
      pos := pos - 1;
    } else {
      while val > 0 && pos >= 0
        invariant 0 <= val && -1 <= pos <= 14
        invariant Key(id) == (if val > 0 then Key(val) else "") + buf[pos + 1..15]
      {
        ghost var tail := buf[pos + 1..15];
        NoLeadingZero(val / 36);
        buf[pos] := Digit(val % 36);
        assert buf[pos..15] == [Digit(val % 36)] + tail;
        pos := pos - 1;
        val := val / 36;
      }
      NoLeadingZero(val);
    }
    key := buf[pos + 1..15];
  }

  // ---------------------------------------------------------------------------
  // The dirty mask
  // ---------------------------------------------------------------------------

  function Index(b: nat): bv5
    requires b < 32
  {
    b as bv5
  }

  predicate TestBit(m: bv32, i: bv5) {
    (m >> i) & 1 == 1
  }

  function SetBit(m: bv32, i: bv5): bv32 {
    m | (1 << i)
  }

  function ClearBit(m: bv32, i: bv5): bv32 {
    m & !(1 << i)
  }

  predicate Bit(m: bv32, b: nat)
    requires b < 32
  {
    TestBit(m, Index(b))
  }

  lemma IndexInjective(b: nat, c: nat)
    requires b < 32 && c < 32
    ensures Index(b) == Index(c) <==> b == c
  {
    assert Index(b) as nat == b && Index(c) as nat == c;
  }

  lemma SetBitTest(m: bv32, i: bv5, j: bv5)
    ensures TestBit(SetBit(m, i), j) <==> TestBit(m, j) || i == j
  {
  }

  lemma ClearBitTest(m: bv32, i: bv5, j: bv5)
    ensures TestBit(ClearBit(m, i), j) <==> TestBit(m, j) && i != j
  {
  }

  lemma ZeroTest(i: bv5)
    ensures !TestBit(0, i)
  {
  }

  lemma AllClearIsZero(m: bv32)
    requires forall i: bv5 :: !TestBit(m, i)
    ensures m == 0
  {
    assert !TestBit(m, 0) && !TestBit(m, 1) && !TestBit(m, 2) && !TestBit(m, 3) && !TestBit(m, 4) && !TestBit(m, 5);
    assert !TestBit(m, 6) && !TestBit(m, 7) && !TestBit(m, 8) && !TestBit(m, 9) && !TestBit(m, 10) && !TestBit(m, 11);
    assert !TestBit(m, 12) && !TestBit(m, 13) && !TestBit(m, 14) && !TestBit(m, 15) && !TestBit(m, 16) &&
           !TestBit(m, 17);
    assert !TestBit(m, 18) && !TestBit(m, 19) && !TestBit(m, 20) && !TestBit(m, 21) && !TestBit(m, 22) &&
           !TestBit(m, 23);
    assert !TestBit(m, 24) && !TestBit(m, 25) && !TestBit(m, 26) && !TestBit(m, 27) && !TestBit(m, 28) &&
           !TestBit(m, 29);
    assert !TestBit(m, 30) && !TestBit(m, 31);
  }

  /** Setting and clearing bit `b` changes that bit only. */
  lemma BitOpsAt(m: bv32, b: nat, c: nat)
    requires b < 32 && c < 32
    ensures Bit(SetBit(m, Index(b)), c) <==> Bit(m, c) || b == c
    ensures Bit(ClearBit(m, Index(b)), c) <==> Bit(m, c) && b != c
    ensures !Bit(0, c)
  {
    hide Index, TestBit, SetBit, ClearBit;
    IndexInjective(b, c);
    SetBitTest(m, Index(b), Index(c));
    ClearBitTest(m, Index(b), Index(c));
    ZeroTest(Index(c));
  }

  lemma NonzeroHasBit(m: bv32)
    requires m != 0
    ensures exists b :: 0 <= b < 32 && Bit(m, b)
  {
    if forall b :: 0 <= b < 32 ==> !Bit(m, b) {
      forall i: bv5 ensures !TestBit(m, i) {
        assert !Bit(m, i as nat) && Index(i as nat) == i;
      }
      hide TestBit;
      AllClearIsZero(m);
    }
  }

  /** `__builtin_ffs(m) - 1`: the lowest set bit. */
  method LowestBit(m: bv32) returns (b: nat)
    requires m != 0
    ensures b < 32 && Bit(m, b) && forall c :: 0 <= c < b ==> !Bit(m, c)
  {
    NonzeroHasBit(m);
    hide Bit;
    b := 0;
    while !Bit(m, b)
      invariant 0 <= b < 32
      invariant forall c :: 0 <= c < b ==> !Bit(m, c)
      decreases 32 - b
    {
      b := b + 1;
    }
  }

  const WORDS: nat := 32

  /** The word and the bit of catalog position `i`. */
  function WordOf(i: nat): (w: nat)
    ensures i < MAX_RESOURCES ==> w < WORDS
  {
    i / 32
  }

  function BitOf(i: nat): (b: nat)
    ensures b < 32
  {
    i % 32
  }

  lemma Decode(w: nat, b: nat)
    requires b < 32
    ensures WordOf(w * 32 + b) == w && BitOf(w * 32 + b) == b
    ensures w < WORDS ==> w * 32 + b < MAX_RESOURCES
  {
  }

  lemma SamePlace(i: nat, j: nat)
    ensures WordOf(i) == WordOf(j) && BitOf(i) == BitOf(j) ==> i == j
  {
  }

  /** Whether the record at catalog position `i` is marked. */
  predicate Dirty(mask: seq<bv32>, i: nat)
    requires |mask| == WORDS
  {
    i < MAX_RESOURCES && Bit(mask[WordOf(i)], BitOf(i))
  }

  ghost function DirtySet(mask: seq<bv32>): set<nat>
    requires |mask| == WORDS
  {
    set i: nat | i < MAX_RESOURCES && Dirty(mask, i)
  }

  type Flash = map<string, Record>

  /** Whether flushing position `i` writes a blob, when writes to the keys in `broken` fail. */
  predicate Writes(s: seq<Record>, i: nat, broken: set<string>) {
    i < |s| && Key(s[i].id) !in broken
  }

  /** The blobs a flush of the marked positions writes. */
  ghost function Blobs(s: seq<Record>, marked: set<nat>, broken: set<string>): Flash {
    if s == [] then map[]
    else
      var n := |s| - 1;
      var rest := Blobs(s[..n], marked, broken);
      if n in marked && Key(s[n].id) !in broken then rest[Key(s[n].id) := s[n]] else rest
  }

  /** The blobs are those of the marked records that can be written, each under its id's key. */
  ghost predicate AreBlobs(blobs: Flash, s: seq<Record>, marked: set<nat>, broken: set<string>) {
    && (forall k :: k in blobs ==> blobs[k] in s && Key(blobs[k].id) == k)
    && (forall i :: 0 <= i < |s| && i in marked && Key(s[i].id) !in broken ==>
          Key(s[i].id) in blobs && blobs[Key(s[i].id)] == s[i])
  }

  lemma BlobsGrow(rest: Flash, t: seq<Record>, r: Record, marked: set<nat>, broken: set<string>)
    requires AreBlobs(rest, t, marked, broken) && forall i :: 0 <= i < |t| ==> Key(t[i].id) != Key(r.id)
    ensures AreBlobs(if |t| in marked && Key(r.id) !in broken then rest[Key(r.id) := r] else rest,
                     t + [r], marked, broken)
  {
    hide Key;
    var s := t + [r];
    var blobs := if |t| in marked && Key(r.id) !in broken then rest[Key(r.id) := r] else rest;
    assert s[|t|] == r && forall i :: 0 <= i < |t| ==> s[i] == t[i];
    forall k | k in blobs ensures blobs[k] in s && Key(blobs[k].id) == k {
      if k in rest && blobs[k] == rest[k] { assert rest[k] in t; } else { assert blobs[k] == s[|t|]; }
    }
  }

  lemma {:induction false} BlobEntries(s: seq<Record>, marked: set<nat>, broken: set<string>)
    requires Sorted(s)
    ensures AreBlobs(Blobs(s, marked, broken), s, marked, broken)
  {
    if s != [] {
      var n := |s| - 1;
      var t := s[..n];
      BlobEntries(t, marked, broken);
      hide Key, AreBlobs;
      forall i | 0 <= i < n ensures Key(t[i].id) != Key(s[n].id) {
        assert t[i] == s[i];
        KeysDistinct(s[i].id, s[n].id);
      }
      assert t + [s[n]] == s;
      hide Sorted;
      BlobsGrow(Blobs(t, marked, broken), t, s[n], marked, broken);
    }
  }

  /** Marking one more position adds its blob, under a key no other position has. */
  lemma {:induction false} OneMoreBlob(s: seq<Record>, marked: set<nat>, broken: set<string>, i: nat)
    requires Sorted(s) && i !in marked
    ensures Writes(s, i, broken) ==>
              && Blobs(s, marked + {i}, broken) == Blobs(s, marked, broken)[Key(s[i].id) := s[i]]
              && Key(s[i].id) !in Blobs(s, marked, broken)
    ensures !Writes(s, i, broken) ==> Blobs(s, marked + {i}, broken) == Blobs(s, marked, broken)
  {
    if s != [] {
      var n := |s| - 1;
      OneMoreBlob(s[..n], marked, broken, i);
      hide Key;
      if i < n { KeysDistinct(s[i].id, s[n].id); }
      if i == n && Writes(s, i, broken) { LastKeyIsNew(s, marked, broken); }
    }
  }

  lemma LastKeyIsNew(s: seq<Record>, marked: set<nat>, broken: set<string>)
    requires Sorted(s) && s != []
    ensures Key(s[|s| - 1].id) !in Blobs(s[..|s| - 1], marked, broken)
  {
    var n := |s| - 1;
    var t := s[..n];
    BlobEntries(t, marked, broken);
    hide Key, Blobs;
    if Key(s[n].id) in Blobs(t, marked, broken) {
      KeysDistinct(Blobs(t, marked, broken)[Key(s[n].id)].id, s[n].id);
    }
  }

  lemma {:induction false} NoBlobs(s: seq<Record>, broken: set<string>)
    ensures Blobs(s, {}, broken) == map[]
  {
    if s != [] { NoBlobs(s[..|s| - 1], broken); }
  }

  // ---------------------------------------------------------------------------
  // Restoring
  // ---------------------------------------------------------------------------

  /** Reading the blobs back in the iterator's order, skipping the unreadable ones. */
  function Restored(flash: Flash, s: seq<Record>, order: seq<string>, unreadable: set<string>): seq<Record>
    requires forall k :: k in order ==> k in flash
  {
    if order == [] then s
    else
      var past, k := order[..|order| - 1], order[|order| - 1];
      var t := Restored(flash, s, past, unreadable);
      if k in unreadable then t else Inserted(t, flash[k])
  }

  lemma InsertMembers(s: seq<Record>, r: Record)
    requires Sorted(s) && |s| <= MAX_RESOURCES && (Holds(s, r.id) || |s| < MAX_RESOURCES)
    ensures Sorted(Inserted(s, r)) && |Inserted(s, r)| <= MAX_RESOURCES
    ensures forall q :: q in Inserted(s, r) <==> q == r || (q in s && q.id != r.id)
  {
    EditRefines(s, Edit.Insert(r));
    HoldsIsMembership(s, r.id);
    var t := Inserted(s, r);
    MapEntries(s);
    MapEntries(t);
    hide Sorted, ToMap, Inserted, Holds;
    forall q ensures q in t <==> q == r || (q in s && q.id != r.id) {
      if q in t { assert ToMap(t)[q.id] == q; }
      if q in s && q.id != r.id { assert ToMap(t)[q.id] == q; }
      assert ToMap(t)[r.id] == r;
    }
  }

  /** A sorted sequence of records of `s` that lacks one is shorter. */
  lemma FewerMembers(t: seq<Record>, s: seq<Record>, r: Record)
    requires Sorted(t) && Sorted(s) && (forall q :: q in t ==> q in s) && r in s && !Holds(t, r.id)
    ensures |t| < |s|
  {
    MapEntries(t);
    MapEntries(s);
    HoldsIsMembership(t, r.id);
    hide Sorted, ToMap, Holds;
    assert ToMap(t).Keys <= ToMap(s).Keys - {r.id};
    SubsetSize(ToMap(t).Keys, ToMap(s).Keys - {r.id});
  }

  lemma {:induction false} SubsetSize<T>(a: set<T>, b: set<T>)
    requires a <= b
    ensures |a| <= |b|
  {
    if a != {} {
      var x :| x in a;
      SubsetSize(a - {x}, b - {x});
    }
  }

  /** The records of the readable blobs listed. */
  ghost predicate IsRead(flash: Flash, order: seq<string>, unreadable: set<string>, q: Record)
    requires forall k :: k in order ==> k in flash
  {
    exists k :: k in order && k !in unreadable && flash[k] == q
  }

  /** Restoring blobs that all come from one sorted catalog collects exactly the blobs that can be read. */
  lemma {:induction false} RestoreCollects(flash: Flash, order: seq<string>, unreadable: set<string>, s: seq<Record>)
    requires Sorted(s) && |s| <= MAX_RESOURCES
    requires forall k :: k in order ==> k in flash && flash[k] in s
    ensures var t := Restored(flash, [], order, unreadable);
            && Sorted(t) && |t| <= MAX_RESOURCES
            && (forall q :: q in t <==> IsRead(flash, order, unreadable, q))
  {
    if order != [] {
      var past, k := order[..|order| - 1], order[|order| - 1];
      RestoreCollects(flash, past, unreadable, s);
      var t := Restored(flash, [], past, unreadable);
      assert forall q :: q in t ==> q in s;
      if k !in unreadable {
        if !Holds(t, flash[k].id) { FewerMembers(t, s, flash[k]); }
        InsertMembers(t, flash[k]);
      }
      OneMoreRead(flash, order, unreadable);
      assert Restored(flash, [], order, unreadable) == if k in unreadable then t else Inserted(t, flash[k]);
      hide Sorted, Inserted, Restored, Holds, IsRead;
      forall q | q in t ensures q.id == flash[k].id ==> q == flash[k] { SameIdSameRecord(s, q, flash[k]); }
    }
  }

  lemma OneMoreRead(flash: Flash, order: seq<string>, unreadable: set<string>)
    requires order != [] && forall k :: k in order ==> k in flash
    ensures var past, k := order[..|order| - 1], order[|order| - 1];
            forall q :: IsRead(flash, order, unreadable, q) <==>
                        IsRead(flash, past, unreadable, q) || (k !in unreadable && q == flash[k])
  {
    var past, k := order[..|order| - 1], order[|order| - 1];
    assert order == past + [k];
    assert forall j :: j in order <==> j in past || j == k;
  }

  lemma SameIdSameRecord(s: seq<Record>, a: Record, b: Record)
    requires Sorted(s) && a in s && b in s
    ensures a.id == b.id ==> a == b
  {
  }

  /**
   * Flush then restore is the identity: a catalog flushed whole into empty flash is rebuilt exactly,
   * whatever the order in which the flash lists its blobs.
   */
  lemma FlushThenRestore(s: seq<Record>, marked: set<nat>, order: seq<string>)
    requires Sorted(s) && |s| <= MAX_RESOURCES && forall i :: 0 <= i < |s| ==> i in marked
    requires forall k :: k in order <==> k in Blobs(s, marked, {})
    ensures Restored(Blobs(s, marked, {}), [], order, {}) == s
  {
    var flash := Blobs(s, marked, {});
    BlobEntries(s, marked, {});
    hide Key, Blobs;
    RestoreCollects(flash, order, {}, s);
    var t := Restored(flash, [], order, {});
    hide Sorted, Restored;
    forall q ensures q in t <==> q in s {
      if q in s {
        var i :| 0 <= i < |s| && s[i] == q;
        assert Key(s[i].id) in order && IsRead(flash, order, {}, q);
      }
    }
    SortedUnique(t, s);
  }

  /**
   * Of the marked positions, those in `done` have been flushed since the flash was `f0`, and those in
   * `left` have not.
   */
  ghost predicate Flushing(f0: Flash, f: Flash, s: seq<Record>, marked: set<nat>, left: set<nat>, done: set<nat>,
                           broken: set<string>, n: nat) {
    done + left == marked && done !! left && f == f0 + Blobs(s, done, broken) && n == |Blobs(s, done, broken)|
  }

  lemma FlushingNext(f0: Flash, f: Flash, s: seq<Record>, marked: set<nat>, left: set<nat>, done: set<nat>,
                     broken: set<string>, n: nat, i: nat)
    requires Sorted(s) && i in left && Flushing(f0, f, s, marked, left, done, broken, n)
    ensures if Writes(s, i, broken)
            then Flushing(f0, f[Key(s[i].id) := s[i]], s, marked, left - {i}, done + {i}, broken, n + 1)
            else Flushing(f0, f, s, marked, left - {i}, done + {i}, broken, n)
  {
    SetMove(left, done, i);
    OneMoreBlob(s, done, broken, i);
    hide Blobs, Key, Sorted;
    if Writes(s, i, broken) {
      MapPlus(f0, Blobs(s, done, broken), Key(s[i].id), s[i]);
    }
  }

  lemma SetMove(left: set<nat>, done: set<nat>, i: nat)
    requires i in left && done !! left
    ensures (done + {i}) + (left - {i}) == done + left && done + {i} !! left - {i} && i !in done
  {
  }

  lemma MapPlus(f: Flash, g: Flash, k: string, r: Record)
    ensures (f + g)[k := r] == f + g[k := r]
    ensures k !in g ==> |g[k := r]| == |g| + 1
  {
  }

  class Journal {
    const mask: array<bv32>
    const catalog: RecordPool
    var isOpen: bool
    var flash: Flash

    ghost predicate Valid()
      reads this, mask, catalog, catalog.pool
    {
      mask.Length == WORDS && catalog.Valid()
    }

    ghost function Marked(): set<nat>
      reads this, mask
      requires mask.Length == WORDS
    {
      DirtySet(mask[..])
    }

    constructor (catalog: RecordPool, flash: Flash)
      requires catalog.Valid()
      ensures Valid() && fresh(mask) && this.catalog == catalog && this.flash == flash && !isOpen && Marked() == {}
    {
      mask := new bv32[WORDS](_ => 0);
      this.catalog := catalog;
      this.flash := flash;
      isOpen := false;
      new;
      forall i: nat | i < MAX_RESOURCES ensures !Dirty(mask[..], i) {
        BitOpsAt(0, 0, BitOf(i));
      }
    }

    method MarkDirty(idx: nat)
      requires Valid()
      modifies mask
      ensures Valid() && Marked() == if idx < MAX_RESOURCES then old(Marked()) + {idx} else old(Marked())
    {
      if idx >= MAX_RESOURCES {
        return;
      }
      ghost var before := mask[..];
      mask[WordOf(idx)] := SetBit(mask[WordOf(idx)], Index(BitOf(idx)));
      DirtyAfterSet(before, mask[..], idx);
    }

    /**
     * Write every marked record; `opens` is whether the flash can be opened, and writes to the keys in
     * `broken` fail. A mark beyond the end of the catalog is dropped, and a failed write is not retried.
     */
    method FlushDirtyRecords(opens: bool, broken: set<string>) returns (written: nat)
      requires Valid()
      modifies this`isOpen, this`flash, mask
      ensures Valid()
      ensures !old(isOpen) && !opens ==> written == 0 && flash == old(flash) && Marked() == old(Marked())
      ensures old(isOpen) || opens ==>
                && isOpen && Marked() == {} && flash == old(flash) + Blobs(catalog.View(), old(Marked()), broken)
                && written == |Blobs(catalog.View(), old(Marked()), broken)|
    {
      written := 0;
      if !isOpen {
        if !opens {
          return;
        }
        isOpen := true;
      }
      ghost var done := {};
      Begin(broken);
      written, done := FlushWords(broken, flash, Marked());
    }

    lemma Begin(broken: set<string>)
      requires Valid()
      ensures Progress(flash, Marked(), {}, broken, 0)
    {
      NoBlobs(catalog.View(), broken);
      hide Blobs, DirtySet;
    }

    /** The flush's outer loop over the 32 words. */
    method FlushWords(broken: set<string>, ghost f0: Flash, ghost marked: set<nat>)
      returns (written: nat, ghost done: set<nat>)
      requires Valid() && Progress(f0, marked, {}, broken, 0)
      modifies this`flash, mask
      ensures Valid() && Marked() == {}
      ensures flash == f0 + Blobs(catalog.View(), marked, broken) && written == |Blobs(catalog.View(), marked, broken)|
    {
      hide Blobs, DirtySet;
      written, done := 0, {};
      var w := 0;
      while w < WORDS
        invariant 0 <= w <= WORDS && Valid() && Progress(f0, marked, done, broken, written)
        invariant forall v :: 0 <= v < w ==> mask[v] == 0
      {
        hide Progress;
        written, done := FlushWord(w, broken, f0, marked, done, written);
        w := w + 1;
      }
      NothingMarked(mask[..]);
    }

    /** The positions in `done` have been flushed since the flash was `f0`, and the rest of `marked` is still to do. */
    ghost predicate Progress(f0: Flash, marked: set<nat>, done: set<nat>, broken: set<string>, n: nat)
      reads this, mask, catalog, catalog.pool
    {
      mask.Length == WORDS && Flushing(f0, flash, catalog.View(), marked, Marked(), done, broken, n)
    }

    /** The flush's inner loop: drain one word of the mask. */
    method FlushWord(w: nat, broken: set<string>, ghost f0: Flash, ghost marked: set<nat>, ghost done: set<nat>, n: nat)
      returns (n': nat, ghost done': set<nat>)
      requires Valid() && w < WORDS && Progress(f0, marked, done, broken, n)
      modifies this`flash, mask
      ensures Valid() && Progress(f0, marked, done', broken, n')
      ensures mask[w] == 0 && forall v :: 0 <= v < WORDS && v != w ==> mask[v] == old(mask[v])
    {
      hide Progress;
      n', done' := n, done;
      while mask[w] != 0
        invariant Valid() && Progress(f0, marked, done', broken, n')
        invariant forall v :: 0 <= v < WORDS && v != w ==> mask[v] == old(mask[v])
        decreases Marked()
      {
        n', done' := FlushLowest(w, broken, f0, marked, done', n');
      }
    }

    /** One turn: write the record of the word's lowest bit, if there is one, and clear the bit. */
    method FlushLowest(w: nat, broken: set<string>, ghost f0: Flash, ghost marked: set<nat>, ghost done: set<nat>,
                       n: nat)
      returns (n': nat, ghost done': set<nat>)
      requires Valid() && w < WORDS && mask[w] != 0 && Progress(f0, marked, done, broken, n)
      modifies this`flash, mask
      ensures Valid() && Progress(f0, marked, done', broken, n')
      ensures Marked() < old(Marked()) && forall v :: 0 <= v < WORDS && v != w ==> mask[v] == old(mask[v])
    {
      hide Flushing, DirtySet, Sorted, Bit, Key;
      var bit := LowestBit(mask[w]);
      var idx := w * 32 + bit;
      MarkHere(w, bit);
      FlushingNext(f0, flash, catalog.View(), marked, Marked(), done, broken, n, idx);
      var wrote := SaveRecord(idx, broken);
      ClearMark(w, bit);
      n' := if wrote then n + 1 else n;
      done' := done + {idx};
    }

    lemma MarkHere(w: nat, bit: nat)
      requires Valid() && w < WORDS && bit < 32 && Bit(mask[w], bit)
      ensures w * 32 + bit in Marked()
    {
      DirtyAfterClear(mask[..], w, bit);
    }

    method SaveRecord(idx: nat, broken: set<string>) returns (wrote: bool)
      requires Valid()
      modifies this`flash
      ensures wrote == Writes(catalog.View(), idx, broken)
      ensures flash == if wrote then old(flash)[Key(catalog.View()[idx].id) := catalog.View()[idx]] else old(flash)
    {
      hide Sorted, Key;
      wrote := false;
      var found, r := catalog.GetByIndex(idx);
      if found {
        var k := GetKey(r.id);
        if k !in broken {
          flash := flash[k := r];
          wrote := true;
        }
      }
    }

    method ClearMark(w: nat, bit: nat)
      requires Valid() && w < WORDS && bit < 32 && Bit(mask[w], bit)
      modifies mask
      ensures Valid() && Marked() == old(Marked()) - {w * 32 + bit}
      ensures forall v :: 0 <= v < WORDS && v != w ==> mask[v] == old(mask[v])
    {
      hide Bit, ClearBit, Index, DirtySet, Sorted;
      ghost var m0 := mask[..];
      DirtyAfterClear(m0, w, bit);
      mask[w] := ClearBit(mask[w], Index(bit));
      assert mask[..] == m0[w := ClearBit(m0[w], Index(bit))];
    }

    /** Insert every readable blob into the catalog, in the order the flash lists them. */
    method RestoreCatalog(opens: bool, order: seq<string>, unreadable: set<string>) returns (ok: bool)
      requires Valid() && forall k :: k in order ==> k in flash
      modifies this`isOpen, catalog`count, catalog.pool
      ensures Valid() && flash == old(flash) && ok == opens
      ensures catalog.View() == if opens then Restored(flash, old(catalog.View()), order, unreadable)
              else old(catalog.View())
    {
      if !opens {
        return false;
      }
      isOpen := true;
      var i := 0;
      while i < |order|
        invariant 0 <= i <= |order| && Valid()
        invariant catalog.View() == Restored(flash, old(catalog.View()), order[..i], unreadable)
      {
        RestoredNext(flash, old(catalog.View()), order, unreadable, i);
        hide Restored, Inserted, Sorted;
        if order[i] !in unreadable {
          var _ := catalog.Insert(flash[order[i]]);
        }
        i := i + 1;
      }
      assert order[..i] == order;
      ok := true;
    }
  }

  lemma RestoredNext(flash: Flash, s: seq<Record>, order: seq<string>, unreadable: set<string>, i: nat)
    requires i < |order| && forall k :: k in order ==> k in flash
    ensures var t := Restored(flash, s, order[..i], unreadable);
            Restored(flash, s, order[..i + 1], unreadable) == if order[i] in unreadable then t
              else Inserted(t, flash[order[i]])
  {
    assert order[..i + 1][..i] == order[..i];
  }

  lemma NothingMarked(mask: seq<bv32>)
    requires |mask| == WORDS && forall v :: 0 <= v < WORDS ==> mask[v] == 0
    ensures DirtySet(mask) == {}
  {
    forall i: nat | i < MAX_RESOURCES ensures !Dirty(mask, i) {
      BitOpsAt(0, 0, BitOf(i));
    }
  }

  lemma DirtyAfterClear(before: seq<bv32>, w: nat, bit: nat)
    requires |before| == WORDS && w < WORDS && bit < 32 && Bit(before[w], bit)
    ensures var after := before[w := ClearBit(before[w], Index(bit))];
            && w * 32 + bit in DirtySet(before)
            && DirtySet(after) == DirtySet(before) - {w * 32 + bit}
  {
    hide Index, ClearBit, TestBit, Bit, WordOf, BitOf;
    var after, idx := before[w := ClearBit(before[w], Index(bit))], w * 32 + bit;
    Decode(w, bit);
    forall i: nat | i < MAX_RESOURCES ensures Dirty(after, i) <==> Dirty(before, i) && i != idx {
      BitOpsAt(before[w], bit, BitOf(i));
      SamePlace(i, idx);
    }
  }

  lemma DirtyAfterSet(before: seq<bv32>, after: seq<bv32>, idx: nat)
    requires |before| == |after| == WORDS && idx < MAX_RESOURCES
    requires after == before[WordOf(idx) := SetBit(before[WordOf(idx)], Index(BitOf(idx)))]
    ensures DirtySet(after) == DirtySet(before) + {idx}
  {
    hide Index, SetBit, TestBit, Bit, WordOf, BitOf;
    forall i: nat | i < MAX_RESOURCES ensures Dirty(after, i) <==> Dirty(before, i) || i == idx {
      BitOpsAt(before[WordOf(idx)], BitOf(idx), BitOf(i));
      SamePlace(i, idx);
    }
  }
}
