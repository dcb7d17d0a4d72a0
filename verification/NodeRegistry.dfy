/** The node registry: ten slots in RAM, the admission they record, and its copy in flash. */
module NodeRegistry {
  import opened Options
  import opened Words
  import CM = ClusterManager

  const MAX_NODES: nat := 10
  const TEXT_LEN: nat := 24
  const SYNC_MS: u32 := 1000

  const DISCOVERED: u8 := 0
  const ADOPTED: u8 := 1
  const CONFIGURED: u8 := 2
  const ACTIVE: u8 := 3

  const TRANSPORT_NONE: u8 := 0
  const TRANSPORT_WIFI_UDP: u8 := 1
  const TRANSPORT_ETHERNET_UDP: u8 := 2
  const TRANSPORT_RS485: u8 := 3
  const TRANSPORT_WIFI_NOW: u8 := 4

  const REASON_NONE: u8 := 0
  const REASON_HEARTBEAT_TIMEOUT: u8 := 1
  const REASON_MISSING_ADDRESS: u8 := 2
  const REASON_LINK_DEGRADED: u8 := 3

  const RECOVERY_CAPS: u8 := 15

  datatype Entry = Entry(id: u32, ip: u32, age: u32, lastSeen: u32, health: u8, cluster: u8, state: u8,
                         transport: u8, reason: u8, caps: u8, profile: string, template: string)

  const EMPTY: Entry := Entry(0, 0, 0, 0, 0, 0, 0, 0, 0, 0, "", "")

  /** A fresh entry for a node just discovered. */
  function Fresh(id: u32): Entry {
    EMPTY.(id := id, state := DISCOVERED)
  }

  /** `node_registry_copy_text` into a 24-byte field. */
  function CopyText(src: string): string {
    if |src| < TEXT_LEN then src else src[..TEXT_LEN - 1]
  }

  const SUPPORTED: seq<string> := ["gateway", "field-node", "relay-node", "sensor-node", "local-io-node"]

  predicate SupportedProfile(p: string) {
    p in SUPPORTED
  }

  predicate TemplateChar(c: char) {
    'a' <= c <= 'z' || 'A' <= c <= 'Z' || '0' <= c <= '9' || c in {'-', '_', '.'}
  }

  predicate ValidTemplate(t: string) {
    forall i :: 0 <= i < |t| ==> TemplateChar(t[i])
  }

  function MapTransport(t: u8): u8 {
    if t == 1 then TRANSPORT_WIFI_UDP
    else if t == 2 then TRANSPORT_ETHERNET_UDP
    else if t == 3 then TRANSPORT_RS485
    else if t == 5 then TRANSPORT_WIFI_NOW
    else TRANSPORT_NONE
  }

  function OfflineReason(e: Entry): u8 {
    if e.cluster == CM.ONLINE then REASON_NONE
    else if e.cluster == CM.SUSPECT then REASON_LINK_DEGRADED
    else if e.transport == TRANSPORT_RS485 || e.ip != 0 then REASON_HEARTBEAT_TIMEOUT
    else REASON_MISSING_ADDRESS
  }

  function ResetRuntime(e: Entry): Entry {
    if e.id == 0 then e
    else
      var r := e.(age := 0, lastSeen := 0, health := 0, cluster := CM.OFFLINE);
      r.(reason := OfflineReason(r), caps := RECOVERY_CAPS)
  }

  predicate ShouldPersist(e: Entry) {
    e.id != 0 && (e.state != DISCOVERED || e.profile != "" || e.template != "")
  }

  // ---------------------------------------------------------------------------
  // Looking up and admission
  // ---------------------------------------------------------------------------

  /** The first slot with this id; a free slot is one with id 0. */
  function Find(s: seq<Entry>, id: u32): (k: nat)
    ensures k <= |s|
    ensures k < |s| ==> s[k].id == id
    ensures forall j :: 0 <= j < k ==> s[j].id != id
    decreases |s|
  {
    if s == [] || s[0].id == id then 0 else 1 + Find(s[1..], id)
  }

  /** What the registry answers about admission. */
  datatype Admission = Admission(state: u8, profile: string, template: string)

  const UNADMITTED: Admission := Admission(DISCOVERED, "", "")

  function Record(e: Entry): Admission {
    Admission(e.state, e.profile, e.template)
  }

  function Answer(s: seq<Entry>, id: u32): Admission {
    if id != 0 && Find(s, id) < |s| then Record(s[Find(s, id)]) else UNADMITTED
  }

  ghost predicate Distinct(s: seq<Entry>) {
    forall i, j :: 0 <= i < j < |s| && s[i].id != 0 ==> s[i].id != s[j].id
  }

  lemma FindIs(s: seq<Entry>, id: u32, k: nat)
    requires Distinct(s) && id != 0 && k < |s| && s[k].id == id
    ensures Find(s, id) == k
  {
    hide Find;
  }

  /** In a table without repeated ids, the answer is the entry's wherever it sits, or none. */
  lemma AnswerMeans(s: seq<Entry>, id: u32)
    requires Distinct(s) && id != 0
    ensures forall k :: 0 <= k < |s| && s[k].id == id ==> Answer(s, id) == Record(s[k])
    ensures (forall k :: 0 <= k < |s| ==> s[k].id != id) ==> Answer(s, id) == UNADMITTED
  {
    forall k | 0 <= k < |s| && s[k].id == id ensures Answer(s, id) == Record(s[k]) { FindIs(s, id, k); }
    hide Find;
  }

  /** Overwriting a slot, with its own id or with a new one in a free slot, changes that id's answer only. */
  lemma PutAnswers(s: seq<Entry>, k: nat, e: Entry, id: u32)
    requires Distinct(s) && k < |s| && e.id != 0 && id != 0
    requires s[k].id == e.id || (s[k].id == 0 && forall j :: 0 <= j < |s| ==> s[j].id != e.id)
    ensures Distinct(s[k := e])
    ensures Answer(s[k := e], id) == if id == e.id then Record(e) else Answer(s, id)
  {
    var t := s[k := e];
    assert Distinct(t);
    AnswerMeans(s, id);
    AnswerMeans(t, id);
    hide Answer, Find;
    if id == e.id { assert t[k].id == id; }
    else if j :| 0 <= j < |s| && s[j].id == id { assert t[j] == s[j]; }
    else { assert forall j :: 0 <= j < |t| ==> t[j].id != id; }
  }

  // ---------------------------------------------------------------------------
  // Flash
  // ---------------------------------------------------------------------------

  /** The first layout of the blob. */
  datatype LegacyEntry = LegacyEntry(id: u32, ip: u32, age: u32, health: u8, cluster: u8, state: u8,
                                     profile: string, template: string)

  /** What the flash holds: nothing loadable, the current blob, or one in the first layout. */
  datatype Flash = Blank | Current(entries: seq<Entry>) | Legacy(entriesV1: seq<LegacyEntry>)

  /** `node_registry_build_blob_locked` */
  function BuildBlob(s: seq<Entry>): (b: seq<Entry>)
    ensures |b| <= |s|
  {
    if s == [] then []
    else (if ShouldPersist(s[0]) then [ResetRuntime(s[0])] else []) + BuildBlob(s[1..])
  }

  function Migrate(e: LegacyEntry): Entry {
    Entry(e.id, e.ip, e.age, 0, e.health, e.cluster, e.state, TRANSPORT_NONE, REASON_NONE, RECOVERY_CAPS,
          CopyText(e.profile), CopyText(e.template))
  }

  function MigrateAll(s: seq<LegacyEntry>): (r: seq<Entry>)
    ensures |r| == |s| && forall i :: 0 <= i < |s| ==> r[i] == Migrate(s[i])
  {
    if s == [] then [] else [Migrate(s[0])] + MigrateAll(s[1..])
  }

  /** `node_registry_load_blob`, which refuses more entries than there are slots. */
  function BlobOf(f: Flash): (b: seq<Entry>)
    ensures |b| <= MAX_NODES
  {
    match f
    case Blank => []
    case Current(b) => if |b| <= MAX_NODES then b else []
    case Legacy(b) => if |b| <= MAX_NODES then MigrateAll(b) else []
  }

  function ResetAll(s: seq<Entry>): (r: seq<Entry>)
    ensures |r| == |s| && forall i :: 0 <= i < |s| ==> r[i] == ResetRuntime(s[i])
  {
    if s == [] then [] else [ResetRuntime(s[0])] + ResetAll(s[1..])
  }

  /** `node_registry_init`: the blob's entries in the first slots, and the rest empty. */
  function Booted(f: Flash): (s: seq<Entry>)
    ensures |s| == MAX_NODES
  {
    ResetAll(BlobOf(f)) + seq(MAX_NODES - |BlobOf(f)|, _ => EMPTY)
  }

  predicate HasId(s: seq<Entry>, id: u32) {
    Find(s, id) < |s|
  }

  lemma AnswerCons(e: Entry, s: seq<Entry>, id: u32)
    requires id != 0
    ensures Answer([e] + s, id) == if e.id == id then Record(e) else Answer(s, id)
    ensures HasId([e] + s, id) <==> e.id == id || HasId(s, id)
    ensures Answer([], id) == UNADMITTED && !HasId([], id)
    ensures !HasId(s, id) ==> Answer(s, id) == UNADMITTED
  {
    assert ([e] + s)[1..] == s;
  }

  lemma DistinctCons(e: Entry, s: seq<Entry>)
    ensures Distinct([e] + s) <==> Distinct(s) && (e.id != 0 ==> !HasId(s, e.id))
  {
    hide Find;
    var t := [e] + s;
    assert forall i :: 0 <= i < |s| ==> t[i + 1] == s[i];
    if Distinct(t) {
      forall i | 0 <= i < |s| && e.id != 0 ensures s[i].id != e.id { assert t[i + 1] == s[i] && t[0] == e; }
    }
    if Distinct(s) && (e.id != 0 ==> !HasId(s, e.id)) {
      forall i, j | 0 <= i < j < |t| && t[i].id != 0 ensures t[i].id != t[j].id {
        assert t[j] == s[j - 1];
        if i > 0 { assert t[i] == s[i - 1]; }
      }
    }
  }

  /**
   * The blob answers exactly as the table it was built from, whose unsaved entries are unadmitted,
   * and it repeats no id.
   */
  lemma {:induction false} BlobAnswers(s: seq<Entry>, id: u32)
    requires Distinct(s) && id != 0
    ensures Answer(BuildBlob(s), id) == Answer(s, id)
    ensures HasId(BuildBlob(s), id) ==> HasId(s, id)
  {
    if s != [] {
      var h, t := s[0], s[1..];
      assert s == [h] + t;
      DistinctCons(h, t);
      BlobAnswers(t, id);
      AnswerCons(h, t, id);
      AnswerCons(ResetRuntime(h), BuildBlob(t), id);
      hide Answer, HasId, Distinct;
      if !ShouldPersist(h) { assert BuildBlob(s) == BuildBlob(t); }
    }
  }

  lemma {:induction false} BlobDistinct(s: seq<Entry>)
    requires Distinct(s)
    ensures Distinct(BuildBlob(s))
  {
    if s != [] {
      var h, t := s[0], s[1..];
      assert s == [h] + t;
      DistinctCons(h, t);
      BlobDistinct(t);
      DistinctCons(ResetRuntime(h), BuildBlob(t));
      if h.id != 0 { BlobAnswers(t, h.id); }
      hide Answer, HasId, Distinct;
      if !ShouldPersist(h) { assert BuildBlob(s) == BuildBlob(t); }
    }
  }

  lemma {:induction false} ResetAnswers(b: seq<Entry>, rest: seq<Entry>, id: u32)
    requires id != 0 && forall e :: e in rest ==> e == EMPTY
    ensures Answer(ResetAll(b) + rest, id) == Answer(b, id)
    ensures HasId(ResetAll(b) + rest, id) <==> HasId(b, id)
  {
    if b != [] {
      var h, t := b[0], b[1..];
      ResetAnswers(t, rest, id);
      assert b == [h] + t && ResetAll(b) + rest == [ResetRuntime(h)] + (ResetAll(t) + rest);
      AnswerCons(h, t, id);
      AnswerCons(ResetRuntime(h), ResetAll(t) + rest, id);
      hide Answer, HasId;
    } else {
      assert ResetAll(b) + rest == rest;
      hide Find;
      forall i | 0 <= i < |rest| ensures rest[i].id == 0 { assert rest[i] in rest; }
    }
  }

  lemma {:induction false} ResetDistinct(b: seq<Entry>, rest: seq<Entry>)
    requires Distinct(b) && forall e :: e in rest ==> e == EMPTY
    ensures Distinct(ResetAll(b) + rest)
  {
    if b != [] {
      var h, t := b[0], b[1..];
      assert b == [h] + t && ResetAll(b) + rest == [ResetRuntime(h)] + (ResetAll(t) + rest);
      DistinctCons(h, t);
      DistinctCons(ResetRuntime(h), ResetAll(t) + rest);
      ResetDistinct(t, rest);
      if h.id != 0 { ResetAnswers(t, rest, h.id); }
      hide HasId, Distinct;
    } else {
      assert ResetAll(b) + rest == rest;
      forall i | 0 <= i < |rest| ensures rest[i].id == 0 { assert rest[i] in rest; }
    }
  }

  /** Booting answers exactly as the blob in flash. */
  lemma BootAnswers(f: Flash, id: u32)
    requires Distinct(BlobOf(f)) && id != 0
    ensures Distinct(Booted(f)) && Answer(Booted(f), id) == Answer(BlobOf(f), id)
  {
    var rest := seq(MAX_NODES - |BlobOf(f)|, _ => EMPTY);
    hide Distinct, Answer, ResetAll, BlobOf, HasId;
    ResetAnswers(BlobOf(f), rest, id);
    ResetDistinct(BlobOf(f), rest);
  }

  // ---------------------------------------------------------------------------
  // The operations, on the ten slots and the flash
  // ---------------------------------------------------------------------------

  /** A node as the cluster manager exports it. */
  type Peer = CM.Node

  datatype Registry = Registry(slots: seq<Entry>, flash: Flash, lastSync: u32)

  /** The slot of an id, or a free slot prepared for it; out of range when there is neither. */
  function SlotFor(s: seq<Entry>, id: u32): (k: nat)
    ensures k <= |s|
  {
    if HasId(s, id) then Find(s, id) else Find(s, 0)
  }

  function Occupant(s: seq<Entry>, id: u32): Entry
    requires SlotFor(s, id) < |s|
  {
    if HasId(s, id) then s[SlotFor(s, id)] else Fresh(id)
  }

  function Refreshed(e: Entry): Entry {
    e.(reason := OfflineReason(e), caps := RECOVERY_CAPS)
  }

  /** `node_registry_seed_entry_from_cluster`: make room for a peer the cluster knows. */
  function Seeded(s: seq<Entry>, id: u32, peers: seq<Peer>): seq<Entry> {
    if id == 0 || CM.Find(peers, id) >= |peers| || SlotFor(s, id) >= |s| then s
    else
      var p := peers[CM.Find(peers, id)];
      s[SlotFor(s, id) := Refreshed(Occupant(s, id).(lastSeen := p.lastSeen, cluster := p.state))]
  }

  /** An administrative edit of one entry. */
  datatype Edit = Adopt | Configure(profile: string, template: string) | Activate | Revoke

  predicate ValidEdit(e: Edit) {
    e.Configure? ==> SupportedProfile(e.profile) && ValidTemplate(e.template)
  }

  function Edited(x: Entry, e: Edit): Entry {
    match e
    case Adopt => if x.state < ADOPTED then x.(state := ADOPTED) else x
    case Configure(p, t) =>
      x.(profile := CopyText(p), template := CopyText(t), state := if x.state >= ACTIVE then ACTIVE else CONFIGURED)
    case Activate => x.(state := ACTIVE)
    case Revoke => x.(state := DISCOVERED, profile := "", template := "")
  }

  /** An entry is made for an unknown node, unless it is being revoked. */
  function Prepared(s: seq<Entry>, id: u32, e: Edit, peers: seq<Peer>): seq<Entry> {
    if e.Revoke? || HasId(s, id) then s else Seeded(s, id, peers)
  }

  /** Whether the edit reaches the point of saving. */
  predicate Attempted(s: seq<Entry>, id: u32, e: Edit, peers: seq<Peer>) {
    && id != 0 && ValidEdit(e)
    && var t := Prepared(s, id, e, peers);
       HasId(t, id) && (e.Activate? ==> t[Find(t, id)].state >= ADOPTED)
  }

  /** The slots as they are while the save is under way. */
  function Pending(s: seq<Entry>, id: u32, e: Edit, peers: seq<Peer>): seq<Entry>
    requires Attempted(s, id, e, peers)
  {
    var t := Prepared(s, id, e, peers);
    t[Find(t, id) := Edited(t[Find(t, id)], e)]
  }

  /** An edit: change the entry, save everything, and put the entry back if the save fails. */
  function Administer(r: Registry, id: u32, e: Edit, peers: seq<Peer>, saved: bool): Registry {
    if id == 0 || !ValidEdit(e) then r
    else if !Attempted(r.slots, id, e, peers) then r.(slots := Prepared(r.slots, id, e, peers))
    else if saved then
      var s := Pending(r.slots, id, e, peers);
      r.(slots := s, flash := Current(BuildBlob(s)))
    else r.(slots := Prepared(r.slots, id, e, peers))
  }

  function Seen(e: Entry, p: Peer): Entry {
    e.(lastSeen := p.lastSeen, cluster := p.state,
       health := if p.state == CM.ONLINE then 100 else if p.state == CM.SUSPECT then 50 else 0)
  }

  /** What one exported peer does to the slots in `node_registry_process`. */
  function Tracked(s: seq<Entry>, p: Peer, self: u32): seq<Entry> {
    if p.id == 0 || p.id == self || SlotFor(s, p.id) >= |s| then s
    else
      s[SlotFor(s, p.id) := Refreshed(Seen(Occupant(s, p.id), p))]
  }

  function TrackedAll(s: seq<Entry>, peers: seq<Peer>, self: u32): seq<Entry> {
    if peers == [] then s else Tracked(TrackedAll(s, peers[..|peers| - 1], self), peers[|peers| - 1], self)
  }

  function SelfMarked(s: seq<Entry>, self: u32): seq<Entry> {
    if self == 0 || !HasId(s, self) then s
    else s[Find(s, self) := s[Find(s, self)].(cluster := CM.ONLINE, health := 100, reason := REASON_NONE,
         caps := RECOVERY_CAPS)]
  }

  /** `node_registry_process`, at most once a second. */
  function Synchronized(r: Registry, now: u32, peers: seq<Peer>, self: u32): Registry {
    if Sub32(now, r.lastSync) < SYNC_MS then r
    else r.(slots := SelfMarked(TrackedAll(ResetAll(r.slots), peers, self), self), lastSync := now)
  }

  function Heard(e: Entry, transport: u8, ip: u32): Entry {
    var h := e.(ip := if ip != 0 then ip else e.ip,
                transport := if MapTransport(transport) != TRANSPORT_NONE then MapTransport(transport)
                  else e.transport);
    h.(reason := OfflineReason(h))
  }

  /** `node_registry_note_transport` */
  function Noted(s: seq<Entry>, id: u32, transport: u8, ip: u32): seq<Entry> {
    if id == 0 || SlotFor(s, id) >= |s| then s
    else s[SlotFor(s, id) := Heard(Occupant(s, id), transport, ip)]
  }

  predicate Replaceable(s: seq<Entry>, oldId: u32, newId: u32) {
    oldId != 0 && newId != 0 && oldId != newId && HasId(s, oldId) && SlotFor(s, newId) < |s|
  }

  /** What the new node takes over; the rest of its slot stays as it was. */
  function Successor(s: seq<Entry>, oldId: u32, newId: u32): Entry
    requires Replaceable(s, oldId, newId)
  {
    var o := s[Find(s, oldId)];
    s[SlotFor(s, newId)].(id := newId, state := o.state, profile := CopyText(o.profile),
      template := CopyText(o.template))
  }

  /** The slots of `node_registry_replace` while its save is under way. */
  function Replacing(s: seq<Entry>, oldId: u32, newId: u32): seq<Entry>
    requires Replaceable(s, oldId, newId)
  {
    s[SlotFor(s, newId) := Successor(s, oldId, newId)][Find(s, oldId) := s[Find(s, oldId)].(id := 0)]
  }

  /** When the save fails the rollback looks for the old id, which is gone, and so does nothing. */
  function Replaced(r: Registry, oldId: u32, newId: u32, saved: bool): Registry {
    if !Replaceable(r.slots, oldId, newId) then r
    else
      var s := Replacing(r.slots, oldId, newId);
      r.(slots := s, flash := if saved then Current(BuildBlob(s)) else r.flash)
  }

  function Boot(f: Flash): Registry {
    Registry(Booted(f), f, 0)
  }

  // ---------------------------------------------------------------------------
  // Reboot transparency
  // ---------------------------------------------------------------------------

  ghost predicate Loadable(f: Flash) {
    Distinct(BlobOf(f))
  }

  ghost predicate WellFormed(r: Registry) {
    |r.slots| == MAX_NODES && Distinct(r.slots) && Loadable(r.flash)
  }

  ghost predicate SameAnswers(s: seq<Entry>, t: seq<Entry>) {
    forall id: u32 :: Answer(s, id) == Answer(t, id)
  }

  /** Rebooting now would answer every admission question as the registry does. */
  ghost predicate Transparent(r: Registry) {
    SameAnswers(Booted(r.flash), r.slots)
  }

  /** The slot found for an id holds it already, or is free and the id is nowhere. */
  lemma SlotMeans(s: seq<Entry>, id: u32)
    requires id != 0 && SlotFor(s, id) < |s|
    ensures var k := SlotFor(s, id);
            s[k].id == id || (s[k].id == 0 && forall j :: 0 <= j < |s| ==> s[j].id != id)
    ensures Answer(s, id) == Record(Occupant(s, id)) && Occupant(s, id).id == id
  {
    hide Find;
  }

  /** Writing an entry into the slot found for its id changes that id's answer only. */
  lemma PlaceAnswers(s: seq<Entry>, e: Entry)
    requires Distinct(s) && e.id != 0 && SlotFor(s, e.id) < |s|
    ensures Distinct(s[SlotFor(s, e.id) := e])
    ensures forall id: u32 :: Answer(s[SlotFor(s, e.id) := e], id) == if id == e.id then Record(e) else Answer(s, id)
  {
    hide SlotFor, HasId, Find, Distinct;
    var k := SlotFor(s, e.id);
    SlotMeans(s, e.id);
    PutAnswers(s, k, e, e.id);
    forall id: u32 ensures Answer(s[k := e], id) == if id == e.id then Record(e) else Answer(s, id) {
      if id != 0 {
        PutAnswers(s, k, e, id);
        hide *;
      }
    }
  }

  /** So a write that keeps what the entry records keeps every answer. */
  lemma PlaceKeeps(s: seq<Entry>, e: Entry)
    requires Distinct(s) && e.id != 0 && SlotFor(s, e.id) < |s| && Record(e) == Record(Occupant(s, e.id))
    ensures Distinct(s[SlotFor(s, e.id) := e]) && SameAnswers(s, s[SlotFor(s, e.id) := e])
  {
    PlaceAnswers(s, e);
    SlotMeans(s, e.id);
    hide Find, Distinct, Answer, SlotFor, HasId, Occupant;
  }

  /** What every update short of an edit keeps: the table's shape and every answer. */
  ghost predicate Keeps(s: seq<Entry>, t: seq<Entry>) {
    |t| == |s| && Distinct(t) && SameAnswers(s, t)
  }

  lemma ResetKeeps(s: seq<Entry>)
    requires Distinct(s)
    ensures Keeps(s, ResetAll(s))
  {
    hide Distinct, Answer, ResetAll;
    assert ResetAll(s) + [] == ResetAll(s);
    ResetDistinct(s, []);
    forall id: u32 ensures Answer(s, id) == Answer(ResetAll(s), id) {
      if id != 0 { ResetAnswers(s, [], id); } else { ZeroUnadmitted(s, ResetAll(s)); }
    }
  }

  lemma ZeroUnadmitted(s: seq<Entry>, t: seq<Entry>)
    ensures Answer(s, 0) == Answer(t, 0)
  {}

  lemma SeedKeeps(s: seq<Entry>, id: u32, peers: seq<Peer>)
    requires Distinct(s)
    ensures Keeps(s, Seeded(s, id, peers))
  {
    if id != 0 && CM.Find(peers, id) < |peers| && SlotFor(s, id) < |s| {
      SlotMeans(s, id);
      var p := peers[CM.Find(peers, id)];
      PlaceKeeps(s, Refreshed(Occupant(s, id).(lastSeen := p.lastSeen, cluster := p.state)));
      hide Distinct, Answer, SlotFor, HasId, Occupant, Find;
    }
  }

  lemma TrackKeeps(s: seq<Entry>, p: Peer, self: u32)
    requires Distinct(s)
    ensures Keeps(s, Tracked(s, p, self))
  {
    if p.id != 0 && p.id != self && SlotFor(s, p.id) < |s| {
      SlotMeans(s, p.id);
      PlaceKeeps(s, Refreshed(Seen(Occupant(s, p.id), p)));
      hide Distinct, Answer, SlotFor, HasId, Occupant, Find;
    }
  }

  lemma {:induction false} TrackAllKeeps(s: seq<Entry>, peers: seq<Peer>, self: u32)
    requires Distinct(s)
    ensures Keeps(s, TrackedAll(s, peers, self))
  {
    if peers != [] {
      TrackAllKeeps(s, peers[..|peers| - 1], self);
      TrackKeeps(TrackedAll(s, peers[..|peers| - 1], self), peers[|peers| - 1], self);
      hide Distinct, Answer, Tracked;
    }
  }

  lemma MarkKeeps(s: seq<Entry>, self: u32)
    requires Distinct(s)
    ensures Keeps(s, SelfMarked(s, self))
  {
    if self != 0 && HasId(s, self) {
      SlotMeans(s, self);
      PlaceKeeps(s, s[Find(s, self)].(cluster := CM.ONLINE, health := 100, reason := REASON_NONE,
        caps := RECOVERY_CAPS));
      hide Distinct, Answer, Find;
    }
  }

  lemma NoteKeeps(s: seq<Entry>, id: u32, transport: u8, ip: u32)
    requires Distinct(s)
    ensures Keeps(s, Noted(s, id, transport, ip))
  {
    if id != 0 && SlotFor(s, id) < |s| {
      SlotMeans(s, id);
      PlaceKeeps(s, Heard(Occupant(s, id), transport, ip));
      hide Distinct, Answer, SlotFor, HasId, Occupant, Find;
    }
  }

  lemma SyncKeeps(r: Registry, now: u32, peers: seq<Peer>, self: u32)
    requires Distinct(r.slots)
    ensures Keeps(r.slots, Synchronized(r, now, peers, self).slots)
  {
    ResetKeeps(r.slots);
    TrackAllKeeps(ResetAll(r.slots), peers, self);
    MarkKeeps(TrackedAll(ResetAll(r.slots), peers, self), self);
    hide Distinct, Answer, ResetAll, TrackedAll, SelfMarked;
  }

  /** The last of the exported peers with this id. */
  function Report(peers: seq<Peer>, id: u32): Option<Peer> {
    if peers == [] then None
    else if peers[|peers| - 1].id == id then Some(peers[|peers| - 1])
    else Report(peers[..|peers| - 1], id)
  }

  /** What is shown of a node's health: as the cluster reports it, or OFFLINE if it does not. */
  predicate ShowsReport(e: Entry, report: Option<Peer>) {
    match report
    case None => e.lastSeen == 0 && e.cluster == CM.OFFLINE && e.health == 0
    case Some(p) =>
      && e.lastSeen == p.lastSeen && e.cluster == p.state
      && e.health == if p.state == CM.ONLINE then 100 else if p.state == CM.SUSPECT then 50 else 0
  }

  /** The reason shown: none while online, a degraded link while suspect, and else silence or no address. */
  predicate ShowsReason(e: Entry) {
    && (e.cluster == CM.ONLINE ==> e.reason == REASON_NONE)
    && (e.cluster == CM.SUSPECT ==> e.reason == REASON_LINK_DEGRADED)
    && (e.cluster !in {CM.ONLINE, CM.SUSPECT} ==>
          e.reason == if e.ip != 0 || e.transport == TRANSPORT_RS485 then REASON_HEARTBEAT_TIMEOUT
                      else REASON_MISSING_ADDRESS)
  }

  /** Every entry but the node's own shows its report, and why it is offline. */
  ghost predicate Shown(s: seq<Entry>, peers: seq<Peer>, self: u32) {
    forall k :: 0 <= k < |s| && s[k].id != 0 ==>
      ShowsReport(s[k], if s[k].id == self then None else Report(peers, s[k].id)) && ShowsReason(s[k])
  }

  lemma TrackShows(s: seq<Entry>, peers: seq<Peer>, self: u32)
    requires Distinct(s) && peers != [] && Shown(s, peers[..|peers| - 1], self)
    ensures Shown(Tracked(s, peers[|peers| - 1], self), peers, self)
  {
    var p := peers[|peers| - 1];
    var t := Tracked(s, p, self);
    TrackKeeps(s, p, self);
    hide Find;
    if p.id != 0 && p.id != self && SlotFor(s, p.id) < |s| {
      SlotMeans(s, p.id);
      var k := SlotFor(s, p.id);
      forall j | 0 <= j < |t| && t[j].id != 0
        ensures ShowsReport(t[j], if t[j].id == self then None else Report(peers, t[j].id)) &&
                ShowsReason(t[j])
      {
        if j != k { assert t[j] == s[j] && t[j].id != t[k].id; }
      }
    } else {
      assert t == s;
      forall j | 0 <= j < |s| && s[j].id != 0 && s[j].id != self
        ensures Report(peers, s[j].id) == Report(peers[..|peers| - 1], s[j].id)
      {
        assert s[j].id != p.id;
      }
    }
  }

  lemma {:induction false} TrackAllShows(s: seq<Entry>, peers: seq<Peer>, self: u32)
    requires Distinct(s) && Shown(s, [], self)
    ensures Shown(TrackedAll(s, peers, self), peers, self)
  {
    if peers != [] {
      TrackAllKeeps(s, peers[..|peers| - 1], self);
      TrackAllShows(s, peers[..|peers| - 1], self);
      hide Distinct, Shown, Tracked, Answer;
      TrackShows(TrackedAll(s, peers[..|peers| - 1], self), peers, self);
    }
  }

  /** Every other node's entry shows its report, with the reason; the node's own shows it ONLINE. */
  ghost predicate AllShown(s: seq<Entry>, peers: seq<Peer>, self: u32) {
    forall k :: 0 <= k < |s| && s[k].id != 0 ==>
      if s[k].id == self then s[k].cluster == CM.ONLINE && s[k].health == 100 && s[k].reason == REASON_NONE
      else ShowsReport(s[k], Report(peers, s[k].id)) && ShowsReason(s[k])
  }

  lemma MarkShows(t: seq<Entry>, peers: seq<Peer>, self: u32)
    requires Distinct(t) && Shown(t, peers, self)
    ensures AllShown(SelfMarked(t, self), peers, self)
  {
    hide Find, Report, ShowsReport, ShowsReason;
    if self != 0 {
      assert forall k :: 0 <= k < |t| && t[k].id == self ==> HasId(t, self) && k == Find(t, self);
    }
  }

  /** What a due synchronization shows of every node, whatever was shown before. */
  lemma SyncShows(r: Registry, now: u32, peers: seq<Peer>, self: u32)
    requires Distinct(r.slots) && Sub32(now, r.lastSync) >= SYNC_MS
    ensures AllShown(Synchronized(r, now, peers, self).slots, peers, self)
  {
    var s := ResetAll(r.slots);
    assert Shown(s, [], self);
    hide Distinct, Shown, AllShown, TrackedAll, ResetAll, SelfMarked, Answer;
    ResetKeeps(r.slots);
    TrackAllShows(s, peers, self);
    TrackAllKeeps(s, peers, self);
    MarkShows(TrackedAll(s, peers, self), peers, self);
  }

  /** Every slot that is taken stays with its node. */
  ghost predicate SlotsKept(s: seq<Entry>, t: seq<Entry>) {
    |t| == |s| && forall k :: 0 <= k < |s| && s[k].id != 0 ==> t[k].id == s[k].id
  }

  ghost predicate Listed(s: seq<Entry>, id: u32) {
    exists k :: 0 <= k < |s| && s[k].id == id
  }

  lemma TrackLists(s: seq<Entry>, p: Peer, self: u32)
    ensures SlotsKept(s, Tracked(s, p, self))
    ensures p.id != 0 && p.id != self ==> Listed(Tracked(s, p, self), p.id) || !Listed(Tracked(s, p, self), 0)
  {
    hide Find;
    var t := Tracked(s, p, self);
    if p.id != 0 && p.id != self && SlotFor(s, p.id) < |s| {
      SlotMeans(s, p.id);
      assert t[SlotFor(s, p.id)].id == p.id;
    }
  }

  lemma {:induction false} TrackAllLists(s: seq<Entry>, peers: seq<Peer>, self: u32)
    ensures SlotsKept(s, TrackedAll(s, peers, self))
    ensures forall i :: 0 <= i < |peers| && peers[i].id != 0 && peers[i].id != self ==>
              Listed(TrackedAll(s, peers, self), peers[i].id) || !Listed(TrackedAll(s, peers, self), 0)
  {
    if peers != [] {
      var past, p := peers[..|peers| - 1], peers[|peers| - 1];
      var t := TrackedAll(s, past, self);
      TrackAllLists(s, past, self);
      TrackLists(t, p, self);
      assert forall i :: 0 <= i < |past| ==> past[i] == peers[i];
      hide Tracked;
      forall i | 0 <= i < |past| && Listed(t, past[i].id) && past[i].id != 0
        ensures Listed(Tracked(t, p, self), past[i].id)
      {
        var k :| 0 <= k < |t| && t[k].id == past[i].id;
        assert Tracked(t, p, self)[k].id == past[i].id;
      }
    }
  }

  /** After a due synchronization every reported peer is listed, unless no slot is free; and no listed node has left. */
  lemma SyncLists(r: Registry, now: u32, peers: seq<Peer>, self: u32)
    requires Sub32(now, r.lastSync) >= SYNC_MS
    ensures var t := Synchronized(r, now, peers, self).slots;
            && SlotsKept(r.slots, t)
            && forall i :: 0 <= i < |peers| && peers[i].id != 0 && peers[i].id != self ==>
                 Listed(t, peers[i].id) || !Listed(t, 0)
  {
    TrackAllLists(ResetAll(r.slots), peers, self);
    var u := TrackedAll(ResetAll(r.slots), peers, self);
    hide TrackedAll, Find;
    var t := SelfMarked(u, self);
    assert |t| == |u| && forall k :: 0 <= k < |u| ==> t[k].id == u[k].id;
    forall id: u32 ensures Listed(t, id) <==> Listed(u, id) {
      if k :| 0 <= k < |u| && u[k].id == id { assert t[k].id == id; }
      if k :| 0 <= k < |t| && t[k].id == id { assert u[k].id == id; }
    }
    hide Listed, ResetRuntime;
    assert forall k :: 0 <= k < |r.slots| ==> ResetAll(r.slots)[k].id == r.slots[k].id by { ResetKeepsIds(r.slots); }
  }

  lemma ResetKeepsIds(s: seq<Entry>)
    ensures forall k :: 0 <= k < |s| ==> ResetAll(s)[k].id == s[k].id
  {}

  /** A save that succeeds leaves a blob from which a boot answers as the table does. */
  lemma SaveIsFaithful(s: seq<Entry>)
    requires |s| == MAX_NODES && Distinct(s)
    ensures Loadable(Current(BuildBlob(s))) && SameAnswers(Booted(Current(BuildBlob(s))), s)
  {
    var f := Current(BuildBlob(s));
    BlobDistinct(s);
    hide Distinct, Answer, Booted;
    forall id: u32 ensures Answer(Booted(f), id) == Answer(s, id) {
      if id != 0 {
        BlobAnswers(s, id);
        BootAnswers(f, id);
        hide BuildBlob;
      } else {
        ZeroUnadmitted(s, Booted(f));
      }
    }
  }

  /** A boot starts a registry that a further boot would not change. */
  lemma BootIsFaithful(f: Flash)
    requires Loadable(f)
    ensures WellFormed(Boot(f)) && Transparent(Boot(f))
  {
    BootAnswers(f, 1);
    hide Distinct, Answer;
  }

  // ---------------------------------------------------------------------------
  // What an edit does to the answers
  // ---------------------------------------------------------------------------

  /** An edit as seen from outside. */
  function After(a: Admission, e: Edit): Admission {
    match e
    case Adopt => a.(state := if a.state < ADOPTED then ADOPTED else a.state)
    case Configure(p, t) => Admission(if a.state >= ACTIVE then ACTIVE else CONFIGURED, CopyText(p), CopyText(t))
    case Activate => a.(state := ACTIVE)
    case Revoke => UNADMITTED
  }

  lemma PrepareKeeps(s: seq<Entry>, id: u32, e: Edit, peers: seq<Peer>)
    requires Distinct(s)
    ensures Keeps(s, Prepared(s, id, e, peers))
  {
    if !e.Revoke? && !HasId(s, id) { SeedKeeps(s, id, peers); }
    hide Distinct, Answer, Seeded;
  }

  lemma PendingAnswers(s: seq<Entry>, id: u32, e: Edit, peers: seq<Peer>)
    requires Distinct(s) && Attempted(s, id, e, peers)
    ensures var t := Pending(s, id, e, peers);
            && |t| == |s| && Distinct(t)
            && forall q: u32 :: Answer(t, q) == if q == id then After(Answer(s, id), e) else Answer(s, q)
  {
    var t := Prepared(s, id, e, peers);
    PrepareKeeps(s, id, e, peers);
    SlotMeans(t, id);
    var x := Edited(t[Find(t, id)], e);
    hide Distinct, Answer, Find, Prepared;
    PlaceAnswers(t, x);
    assert Record(x) == After(Record(t[Find(t, id)]), e);
  }

  /**
   * An edit takes effect on one node's answer exactly when it is attempted and saved, and otherwise
   * on none. In the first case a reboot then answers the same; in the other the flash is as before.
   */
  lemma EditStep(r: Registry, id: u32, e: Edit, peers: seq<Peer>, saved: bool)
    requires WellFormed(r)
    ensures var n := Administer(r, id, e, peers, saved);
            var done := saved && Attempted(r.slots, id, e, peers);
            && WellFormed(n) && (if done then Transparent(n) else n.flash == r.flash)
            && forall q: u32 :: Answer(n.slots, q) ==
                 if q == id && done then After(Answer(r.slots, id), e) else Answer(r.slots, q)
  {
    PrepareKeeps(r.slots, id, e, peers);
    if Attempted(r.slots, id, e, peers) {
      PendingAnswers(r.slots, id, e, peers);
      SaveIsFaithful(Pending(r.slots, id, e, peers));
      hide Distinct, Answer, Pending, Prepared, Booted, BuildBlob, Attempted, After;
    } else {
      hide Distinct, Answer, Prepared, Booted, After;
    }
  }

  // ---------------------------------------------------------------------------
  // Replacing a node
  // ---------------------------------------------------------------------------

  function Copied(a: Admission): Admission {
    Admission(a.state, CopyText(a.profile), CopyText(a.template))
  }

  /** Freeing a slot forgets its node and no other. */
  lemma FreeAnswers(s: seq<Entry>, k: nat, e: Entry, id: u32)
    requires Distinct(s) && k < |s| && s[k].id != 0 && e.id == 0
    ensures Distinct(s[k := e])
    ensures Answer(s[k := e], id) == if id == s[k].id then UNADMITTED else Answer(s, id)
  {
    var t := s[k := e];
    assert Distinct(t);
    if id == 0 {
      ZeroUnadmitted(s, t);
    } else {
      AnswerMeans(s, id);
      AnswerMeans(t, id);
      hide Answer, Find;
      if j :| 0 <= j < |t| && t[j].id == id { assert s[j] == t[j]; }
      else if id != s[k].id { assert forall j :: 0 <= j < |s| && j != k ==> s[j] == t[j]; }
    }
  }

  lemma ReplacingAnswers(s: seq<Entry>, oldId: u32, newId: u32)
    requires Distinct(s) && Replaceable(s, oldId, newId)
    ensures var t := Replacing(s, oldId, newId);
            && |t| == |s| && Distinct(t)
            && forall q: u32 :: Answer(t, q) ==
                 if q == newId then Copied(Answer(s, oldId)) else if q == oldId then UNADMITTED else Answer(s, q)
  {
    var k, f := SlotFor(s, newId), Find(s, oldId);
    SlotMeans(s, newId);
    SlotMeans(s, oldId);
    var x := Successor(s, oldId, newId);
    PlaceAnswers(s, x);
    var u := s[k := x];
    assert Record(x) == Copied(Answer(s, oldId));
    hide Distinct, Answer, SlotFor, HasId, Find, Record, Copied;
    forall q: u32
      ensures Distinct(Replacing(s, oldId, newId))
      ensures Answer(Replacing(s, oldId, newId), q) ==
                if q == newId then Copied(Answer(s, oldId)) else if q == oldId then UNADMITTED else Answer(s, q)
    {
      FreeAnswers(u, f, s[f].(id := 0), q);
    }
    FreeAnswers(u, f, s[f].(id := 0), 0);
  }

  // ---------------------------------------------------------------------------
  // Runs
  // ---------------------------------------------------------------------------

  /**
   * `saved` says whether the operation's write to flash succeeded. Losing power during a write is the
   * operation with either outcome, followed by a reboot.
   */
  datatype Op =
    | Administration(id: u32, edit: Edit, peers: seq<Peer>, saved: bool)
    | Replacement(oldId: u32, newId: u32, saved: bool)
    | Process(now: u32, peers: seq<Peer>, self: u32)
    | NoteTransport(id: u32, transport: u8, ip: u32)
    | Reboot

  function Apply(r: Registry, op: Op): Registry {
    match op
    case Administration(id, e, peers, saved) => Administer(r, id, e, peers, saved)
    case Replacement(o, n, saved) => Replaced(r, o, n, saved)
    case Process(now, peers, self) => Synchronized(r, now, peers, self)
    case NoteTransport(id, transport, ip) => r.(slots := Noted(r.slots, id, transport, ip))
    case Reboot => Boot(r.flash)
  }

  /** What the registry is to answer about a node after an operation. */
  function Outcome(r: Registry, op: Op, id: u32): Admission {
    var a := Answer(r.slots, id);
    match op
    case Administration(n, e, peers, saved) =>
      if id == n && saved && Attempted(r.slots, n, e, peers) then After(a, e) else a
    case Replacement(o, n, _) =>
      if !Replaceable(r.slots, o, n) || (id != o && id != n) then a
      else if id == n then Copied(Answer(r.slots, o)) else UNADMITTED
    case Reboot => Answer(Booted(r.flash), id)
    case _ => a
  }

  /** The operation replaces the blob in flash. */
  predicate Writes(r: Registry, op: Op) {
    match op
    case Administration(id, e, peers, saved) => saved && Attempted(r.slots, id, e, peers)
    case Replacement(o, n, saved) => saved && Replaceable(r.slots, o, n)
    case _ => false
  }

  /** The operation is a replacement whose write fails: the slots change and the flash does not. */
  predicate Strays(r: Registry, op: Op) {
    op.Replacement? && !op.saved && Replaceable(r.slots, op.oldId, op.newId)
  }

  /** A replacement whose write fails does no harm only if neither node has been admitted. */
  predicate Harmless(r: Registry, op: Op) {
    Strays(r, op) ==> Answer(r.slots, op.oldId) == UNADMITTED == Answer(r.slots, op.newId)
  }

  lemma ReplaceStep(r: Registry, oldId: u32, newId: u32, saved: bool)
    requires WellFormed(r)
    ensures var n, op := Replaced(r, oldId, newId, saved), Replacement(oldId, newId, saved);
            && WellFormed(n) && (if Writes(r, op) then Transparent(n) else n.flash == r.flash)
            && (Transparent(r) ==> (Transparent(n) <==> Harmless(r, op)))
            && forall id: u32 :: Answer(n.slots, id) == Outcome(r, op, id)
  {
    if Replaceable(r.slots, oldId, newId) {
      ReplacingAnswers(r.slots, oldId, newId);
      var t := Replacing(r.slots, oldId, newId);
      SaveIsFaithful(t);
      hide Distinct, Answer, Replacing, Booted, BuildBlob, Replaceable;
      if !saved && Transparent(r.(slots := t)) && Transparent(r) {
        assert Answer(t, oldId) == Answer(r.slots, oldId);
        assert Answer(t, newId) == Answer(r.slots, newId);
      }
    }
  }

  /**
   * Every operation has its stated outcome. One that writes, and a reboot, leaves flash and table in
   * agreement whatever was before, and no other changes the flash; so agreement is lost exactly by a
   * harmful failed replacement.
   */
  lemma StepOutcome(r: Registry, op: Op)
    requires WellFormed(r)
    ensures var n := Apply(r, op);
            && WellFormed(n) && (if Writes(r, op) || op.Reboot? then Transparent(n) else n.flash == r.flash)
            && (Transparent(r) ==> (Transparent(n) <==> Harmless(r, op)))
            && forall id: u32 :: Answer(n.slots, id) == Outcome(r, op, id)
  {
    match op
    case Administration(id, e, peers, saved) =>
      EditStep(r, id, e, peers, saved);
      hide Administer, Attempted, Answer, Distinct, Booted, After;
    case Replacement(o, n, saved) =>
      ReplaceStep(r, o, n, saved);
      hide Replaced, Replaceable, Answer, Distinct, Booted;
    case Process(now, peers, self) =>
      SyncKeeps(r, now, peers, self);
      assert Synchronized(r, now, peers, self).flash == r.flash;
      hide Synchronized, Answer, Distinct, Booted;
    case NoteTransport(id, transport, ip) =>
      NoteKeeps(r.slots, id, transport, ip);
      hide Noted, Answer, Distinct, Booted;
    case Reboot =>
      BootIsFaithful(r.flash);
      hide Answer, Distinct, Booted;
  }

  function Run(r: Registry, ops: seq<Op>): Registry {
    if ops == [] then r else Apply(Run(r, ops[..|ops| - 1]), ops[|ops| - 1])
  }

  /** After the operation, flash and table agree whatever was before. */
  predicate Mends(r: Registry, op: Op) {
    op.Reboot? || Writes(r, op)
  }

  /** The registry right after the last write or reboot of the run, or at its start. */
  function LastMended(r: Registry, ops: seq<Op>): Registry {
    if ops == [] then r
    else
      var past := ops[..|ops| - 1];
      if Mends(Run(r, past), ops[|ops| - 1]) then Run(r, ops) else LastMended(r, past)
  }

  lemma RebootBoots(v: Registry)
    ensures Apply(v, Reboot).slots == Booted(v.flash)
  {
  }

  lemma {:induction false} FlashAnswers(r: Registry, ops: seq<Op>)
    requires WellFormed(r) && Transparent(r)
    ensures var v := Run(r, ops);
            WellFormed(v) && SameAnswers(Booted(v.flash), LastMended(r, ops).slots)
  {
    if ops != [] {
      var past, op := ops[..|ops| - 1], ops[|ops| - 1];
      FlashAnswers(r, past);
      StepOutcome(Run(r, past), op);
      hide WellFormed, Harmless, Apply, SameAnswers, Booted, Writes, Outcome;
    }
  }

  /**
   * What a reboot answers, over every run from power-up with writes failing at will: what the registry
   * answered right after the last write that succeeded, or the last reboot. So a reboot changes no
   * answer if and only if the answers are the same now, that is, if the replacements that failed since
   * then cancel out; and the table repeats no id.
   */
  lemma RebootAnswers(f: Flash, ops: seq<Op>)
    requires Loadable(f)
    ensures var v := Run(Boot(f), ops);
            && |v.slots| == MAX_NODES && Distinct(v.slots) && Loadable(v.flash)
            && (forall id: u32 :: Answer(Apply(v, Reboot).slots, id) == Answer(LastMended(Boot(f), ops).slots, id))
            && (Transparent(v) <==> SameAnswers(LastMended(Boot(f), ops).slots, v.slots))
  {
    BootIsFaithful(f);
    FlashAnswers(Boot(f), ops);
    var v := Run(Boot(f), ops);
    RebootBoots(v);
    hide Apply, Answer, Distinct, Booted, Run, LastMended, BlobOf, Boot;
  }

  /** Every replacement that failed since the last write or reboot was harmless when it happened. */
  predicate HarmlessSince(r: Registry, ops: seq<Op>) {
    ops != [] ==>
      var m := Run(r, ops[..|ops| - 1]);
      Mends(m, ops[|ops| - 1]) || (HarmlessSince(r, ops[..|ops| - 1]) && Harmless(m, ops[|ops| - 1]))
  }

  /** A harmful replacement failed since the last write or reboot, and no other failed after it. */
  predicate Adrift(r: Registry, ops: seq<Op>) {
    && ops != []
    && var m, op := Run(r, ops[..|ops| - 1]), ops[|ops| - 1];
       !Mends(m, op) &&
       if HarmlessSince(r, ops[..|ops| - 1]) then !Harmless(m, op) else Adrift(r, ops[..|ops| - 1]) && !Strays(m, op)
  }

  lemma {:induction false} RunTransparent(r: Registry, ops: seq<Op>)
    requires WellFormed(r) && Transparent(r)
    ensures WellFormed(Run(r, ops))
    ensures HarmlessSince(r, ops) ==> Transparent(Run(r, ops))
    ensures Adrift(r, ops) ==> !Transparent(Run(r, ops))
  {
    if ops != [] {
      var past, op := ops[..|ops| - 1], ops[|ops| - 1];
      var m := Run(r, past);
      RunTransparent(r, past);
      StepOutcome(m, op);
      StillMeansSame(m, op);
      hide WellFormed, Transparent, Harmless, Apply, Mends, Strays, Writes, Outcome;
    }
  }

  /** An operation that neither mends nor strays leaves flash and answers alone. */
  lemma StillMeansSame(m: Registry, op: Op)
    requires WellFormed(m)
    ensures !Mends(m, op) && !Strays(m, op) ==> (Transparent(Apply(m, op)) <==> Transparent(m))
    ensures Mends(m, op) ==> Transparent(Apply(m, op))
  {
    StepOutcome(m, op);
    hide WellFormed, Apply, Answer, Booted, Replaceable, Attempted;
  }

  /**
   * Reboot transparency: after any run from power-up, with writes failing at will, the table repeats no
   * id; a reboot gives the same answer for every node if every replacement that failed since the last
   * write or reboot was harmless, and not if a harmful one did and no other failed after it.
   */
  lemma RebootTransparent(f: Flash, ops: seq<Op>)
    requires Loadable(f)
    ensures var v := Run(Boot(f), ops);
            && |v.slots| == MAX_NODES && Distinct(v.slots) && Loadable(v.flash)
            && (HarmlessSince(Boot(f), ops) ==>
                  forall id: u32 :: Answer(Apply(v, Reboot).slots, id) == Answer(v.slots, id))
            && (Adrift(Boot(f), ops) ==>
                  exists id: u32 :: Answer(Apply(v, Reboot).slots, id) != Answer(v.slots, id))
  {
    BootIsFaithful(f);
    RunTransparent(Boot(f), ops);
    var v := Run(Boot(f), ops);
    RebootBoots(v);
    hide Apply, Answer, Distinct, Booted, Run, HarmlessSince, Adrift, BlobOf, Boot;
  }

  /** The nodes that were parties to a replacement that failed since the last write or reboot of the run. */
  function Parties(r: Registry, ops: seq<Op>): set<u32> {
    if ops == [] then {}
    else
      var past, op := ops[..|ops| - 1], ops[|ops| - 1];
      var m := Run(r, past);
      if Mends(m, op) then {}
      else Parties(r, past) + if Strays(m, op) then {op.oldId, op.newId} else {}
  }

  /**
   * Flash and table agree about one node after an operation that mends, or that leaves it alone if they
   * agreed before.
   */
  lemma AgreeStep(m: Registry, op: Op, id: u32)
    requires WellFormed(m)
    requires Mends(m, op) || (Answer(Booted(m.flash), id) == Answer(m.slots, id) &&
                              (Strays(m, op) ==> id != op.oldId && id != op.newId))
    ensures var n := Apply(m, op);
            Answer(Booted(n.flash), id) == Answer(n.slots, id)
  {
    StepOutcome(m, op);
    var n := Apply(m, op);
    hide WellFormed, Harmless, Apply, Answer, Booted, Attempted, Replaceable, After, Copied;
    if Mends(m, op) { assert Transparent(n); } else { assert Answer(n.slots, id) == Outcome(m, op, id); }
  }

  lemma {:induction false} OthersAgree(r: Registry, ops: seq<Op>, id: u32)
    requires WellFormed(r) && Transparent(r)
    ensures var v := Run(r, ops);
            WellFormed(v) && (id !in Parties(r, ops) ==> Answer(Booted(v.flash), id) == Answer(v.slots, id))
  {
    if ops != [] {
      var past, op := ops[..|ops| - 1], ops[|ops| - 1];
      OthersAgree(r, past, id);
      StepOutcome(Run(r, past), op);
      hide WellFormed, Transparent, Harmless, Apply, Answer, Booted, Mends, Strays, Outcome, Writes;
      if id !in Parties(r, ops) { AgreeStep(Run(r, past), op, id); }
    }
  }

  /**
   * Over every run from power-up, a reboot leaves alone the answer of every node that was no party to such
   * a replacement.
   */
  lemma RebootSparesOthers(f: Flash, ops: seq<Op>, id: u32)
    requires Loadable(f) && id !in Parties(Boot(f), ops)
    ensures var v := Run(Boot(f), ops);
            Answer(Apply(v, Reboot).slots, id) == Answer(v.slots, id)
  {
    hide *;
    BootIsFaithful(f);
    OthersAgree(Boot(f), ops, id);
    RebootBoots(Run(Boot(f), ops));
  }

  /** An admission within the four ranks. */
  ghost predicate Ranked(s: seq<Entry>) {
    forall id: u32 :: Answer(s, id).state <= ACTIVE
  }

  /** Every rank, in the table and in what a reboot would answer. */
  ghost predicate AllRanked(r: Registry) {
    Ranked(r.slots) && Ranked(Booted(r.flash))
  }

  /** The operation revokes the node, or has it as a party to a replacement. */
  predicate Demotes(op: Op, id: u32) {
    || (op.Administration? && op.edit.Revoke? && op.id == id && op.saved)
    || (op.Replacement? && (id == op.oldId || id == op.newId))
  }

  lemma OutcomeRank(r: Registry, op: Op, id: u32)
    requires AllRanked(r)
    ensures Outcome(r, op, id).state <= ACTIVE
    ensures !op.Reboot? && Outcome(r, op, id).state < Answer(r.slots, id).state ==> Demotes(op, id)
  {
    hide Answer, Booted, Attempted, Replaceable;
    assert Answer(r.slots, id).state <= ACTIVE && Answer(Booted(r.flash), id).state <= ACTIVE;
    if op.Replacement? { assert Answer(r.slots, op.oldId).state <= ACTIVE; }
  }

  /** From any well-formed state, no operation but these and a reboot lowers a node's rank. */
  lemma RankStep(r: Registry, op: Op)
    requires WellFormed(r) && AllRanked(r)
    ensures AllRanked(Apply(r, op))
    ensures forall id: u32 :: !op.Reboot? && Answer(Apply(r, op).slots, id).state < Answer(r.slots, id).state ==>
              Demotes(op, id)
  {
    StepOutcome(r, op);
    var n := Apply(r, op);
    hide Answer, Apply, WellFormed, Harmless, Outcome, Booted, Demotes, AllRanked, Writes;
    forall id: u32
      ensures Answer(n.slots, id).state <= ACTIVE
      ensures !op.Reboot? && Answer(n.slots, id).state < Answer(r.slots, id).state ==> Demotes(op, id)
    {
      OutcomeRank(r, op, id);
      assert Answer(n.slots, id) == Outcome(r, op, id);
    }
    FlashRanked(r, n);
  }

  /** A flash that was not written, or agrees with the table, is ranked as those are. */
  lemma FlashRanked(r: Registry, n: Registry)
    requires AllRanked(r) && Ranked(n.slots) && (Transparent(n) || n.flash == r.flash)
    ensures AllRanked(n)
  {
    hide Answer, Booted;
    if Transparent(n) {
      forall id: u32 ensures Answer(Booted(n.flash), id).state <= ACTIVE {
        assert Answer(Booted(n.flash), id) == Answer(n.slots, id) && Answer(n.slots, id).state <= ACTIVE;
      }
    }
  }

  lemma RankKept(r: Registry, op: Op)
    requires WellFormed(r) && AllRanked(r)
    ensures WellFormed(Apply(r, op)) && AllRanked(Apply(r, op))
  {
    hide *;
    StepOutcome(r, op);
    RankStep(r, op);
  }

  lemma {:induction false} RunRanked(r: Registry, ops: seq<Op>)
    requires WellFormed(r) && AllRanked(r)
    ensures WellFormed(Run(r, ops)) && AllRanked(Run(r, ops))
  {
    hide WellFormed, AllRanked, Apply;
    if ops != [] {
      var past := ops[..|ops| - 1];
      RunRanked(r, past);
      RankKept(Run(r, past), ops[|past|]);
    }
  }

  /**
   * In every run from power-up with writes failing at will, a node's rank falls only when it is revoked
   * and that is saved, when it is a party to a replacement, or when a reboot takes back a replacement that
   * failed, to which it was a party, since the last write or reboot.
   */
  lemma RankFallsOnlyByRevoke(f: Flash, ops: seq<Op>, op: Op, id: u32)
    requires Loadable(f) && Ranked(Booted(f))
    ensures var v := Run(Boot(f), ops);
            Answer(Apply(v, op).slots, id).state < Answer(v.slots, id).state ==>
              Demotes(op, id) || (op.Reboot? && id in Parties(Boot(f), ops))
  {
    BootIsFaithful(f);
    RunRanked(Boot(f), ops);
    RankStep(Run(Boot(f), ops), op);
    if op.Reboot? && id !in Parties(Boot(f), ops) { RebootSparesOthers(f, ops, id); }
    hide Answer, Apply, Run, Parties, WellFormed, AllRanked, Demotes;
  }

  /** A registry that booted with node 7 adopted and nothing else. */
  lemma SevenAdopted() returns (r: Registry)
    ensures r == Boot(Current([EMPTY.(id := 7, state := ADOPTED)])) && WellFormed(r) && Transparent(r)
    ensures r.slots[0].id == 7 && r.slots[1] == EMPTY && Find(r.slots, 7) == 0 && SlotFor(r.slots, 8) == 1
    ensures Replaceable(r.slots, 7, 8)
    ensures Answer(r.slots, 7) == Admission(ADOPTED, "", "") && Answer(r.slots, 8) == UNADMITTED
  {
    var x := EMPTY.(id := 7, state := ADOPTED);
    var f := Current([x]);
    r := Boot(f);
    var s := r.slots;
    assert s[0].id == 7 && s[1] == EMPTY;
    assert Distinct([x]);
    hide Booted, Boot, ResetAll, WellFormed, Transparent, Harmless, Apply;
    assert Replaceable(s, 7, 8);
    BootIsFaithful(f);
    assert BlobOf(f) == [x];
    assert Find(s, 7) == 0 && SlotFor(s, 8) == 1 by { FindFirst(s, 7, 0); FindFirst(s, 8, |s|); FindFirst(s, 0, 1); }
    hide Replaceable, Find, HasId, SlotFor, BlobOf, Distinct;
    assert Answer(s, 7) == Record(x) by { BootAnswers(f, 7); AnswerCons(x, [], 7); assert [x] + [] == [x]; }
    assert Answer(s, 8) == UNADMITTED by { BootAnswers(f, 8); AnswerCons(x, [], 8); assert [x] + [] == [x]; }
  }

  /** A failed replacement of an adopted node leaves the newcomer adopted until the next reboot. */
  lemma FailedReplaceShows()
    ensures var f := Current([EMPTY.(id := 7, state := ADOPTED)]);
            var r := Apply(Boot(f), Replacement(7, 8, false));
            Answer(r.slots, 8).state == ADOPTED && Answer(Apply(r, Reboot).slots, 8) == UNADMITTED
  {
    var r := SevenAdopted();
    hide Find, SlotFor, Answer, Replaceable, Replacing, WellFormed, Booted, HasId;
    StepOutcome(r, Replacement(7, 8, false));
  }

  /**
   * Two failed replacements that cancel out: the node is replaced and then replaces its successor. The
   * first is harmful, and yet a reboot at the end changes no answer.
   */
  lemma FailedReplacesCancel()
    ensures var f := Current([EMPTY.(id := 7, state := ADOPTED)]);
            var there, back := Replacement(7, 8, false), Replacement(8, 7, false);
            !Harmless(Boot(f), there) && Transparent(Apply(Apply(Boot(f), there), back))
  {
    var f := Current([EMPTY.(id := 7, state := ADOPTED)]);
    var there, back := Replacement(7, 8, false), Replacement(8, 7, false);
    var r := SevenAdopted();
    var n := Apply(r, there);
    StepOutcome(r, there);
    assert n.slots[0].id == 0 && n.slots[1].id == 8 && |n.slots| == MAX_NODES;
    assert Replaceable(n.slots, 8, 7);
    StepOutcome(n, back);
    hide Apply, Answer, Booted, Distinct, Replaceable, Replacing, Boot, WellFormed;
    assert forall id: u32 :: Answer(Apply(n, back).slots, id) == Answer(r.slots, id);
  }

  // ---------------------------------------------------------------------------
  // The registry in place
  // ---------------------------------------------------------------------------

  /** A slot with the id and none before it is the one `Find` finds; a table without it has none. */
  lemma FindFirst(s: seq<Entry>, id: u32, k: nat)
    requires k <= |s| && (forall j :: 0 <= j < k ==> s[j].id != id) && (k < |s| ==> s[k].id == id)
    ensures Find(s, id) == k && (HasId(s, id) <==> k < |s|)
  {
    hide Find;
  }

  lemma FindStays(s: seq<Entry>, k: nat, e: Entry)
    requires e.id != 0 && k == Find(s, e.id) && k < |s|
    ensures Find(s[k := e], e.id) == k
  {
    FindFirst(s[k := e], e.id, k);
  }

  lemma TrackNext(s: seq<Entry>, peers: seq<Peer>, self: u32, i: nat)
    requires i < |peers|
    ensures TrackedAll(s, peers[..i + 1], self) == Tracked(TrackedAll(s, peers[..i], self), peers[i], self)
  {
    assert peers[..i + 1][..i] == peers[..i];
  }

  lemma BlobNext(s: seq<Entry>, i: nat)
    requires i < |s|
    ensures BuildBlob(s[i..]) == (if ShouldPersist(s[i]) then [ResetRuntime(s[i])] else []) + BuildBlob(s[i + 1..])
  {
    assert s[i..][1..] == s[i + 1..];
  }

  lemma BlobEnd(s: seq<Entry>)
    ensures BuildBlob(s[|s|..]) == []
  {
  }

  lemma TrackNone(s: seq<Entry>, self: u32)
    ensures TrackedAll(s, [], self) == s
  {}

  /** Putting the previous entry back undoes an edit that was not saved. */
  lemma RollbackRestores(s: seq<Entry>, k: nat, e: Entry)
    requires e.id != 0 && k == Find(s, e.id) && k < |s|
    ensures s[k := e][k := s[k]] == s && Find(s[k := e], e.id) == k
  {
    FindStays(s, k, e);
  }

  /** After a replacement the old id is nowhere in the table. */
  lemma OldIsGone(s: seq<Entry>, oldId: u32, newId: u32)
    requires Distinct(s) && Replaceable(s, oldId, newId)
    ensures Find(Replacing(s, oldId, newId), oldId) == |s|
  {
    var t := Replacing(s, oldId, newId);
    SlotMeans(s, newId);
    hide Find;
    assert s[Find(s, oldId)].id == oldId;
    forall j | 0 <= j < |t| ensures t[j].id != oldId {
      if j != Find(s, oldId) && j != SlotFor(s, newId) { assert t[j] == s[j]; }
    }
  }

  method CheckProfile(profile: string) returns (ok: bool)
    ensures ok <==> SupportedProfile(profile)
  {
    if profile == "" {
      return false;
    }
    var i := 0;
    while i < |SUPPORTED|
      invariant i <= |SUPPORTED| && profile !in SUPPORTED[..i]
    {
      if profile == SUPPORTED[i] {
        return true;
      }
      i := i + 1;
    }
    return false;
  }

  method CheckTemplate(template: string) returns (ok: bool)
    ensures ok <==> ValidTemplate(template)
  {
    var i := 0;
    while i < |template|
      invariant i <= |template| && ValidTemplate(template[..i])
    {
      if !TemplateChar(template[i]) {
        return false;
      }
      i := i + 1;
    }
    assert template[..i] == template;
    return true;
  }

  class Table {
    const entries: array<Entry>
    var flash: Flash
    var lastSync: u32
    var initialized: bool

    ghost predicate Valid()
      reads this, entries
    {
      entries.Length == MAX_NODES && Distinct(entries[..])
    }

    ghost function View(): Registry
      reads this, entries
    {
      Registry(entries[..], flash, lastSync)
    }

    constructor (f: Flash)
      ensures Valid() && fresh(entries) && View() == Registry(seq(MAX_NODES, _ => EMPTY), f, 0) && !initialized
    {
      entries := new Entry[MAX_NODES](_ => EMPTY);
      flash, lastSync, initialized := f, 0, false;
      new;
      assert entries[..] == seq(MAX_NODES, _ => EMPTY);
    }

    method FindLocked(id: u32) returns (k: nat)
      requires Valid()
      ensures Valid() && View() == old(View()) && k == Find(entries[..], id)
    {
      k := 0;
      while k < MAX_NODES && entries[k].id != id
        invariant k <= MAX_NODES && forall j :: 0 <= j < k ==> entries[j].id != id
      {
        k := k + 1;
      }
      FindFirst(entries[..], id, k);
    }

    /** Finds a node's slot, or clears a free one for it. */
    method Obtain(id: u32) returns (k: nat)
      requires Valid() && id != 0
      modifies entries
      ensures Valid() && k == SlotFor(old(entries[..]), id)
      ensures entries[..] == if k < MAX_NODES then old(entries[..])[k := Occupant(old(entries[..]), id)]
              else old(entries[..])
    {
      hide Distinct, Find;
      k := FindLocked(id);
      if k == MAX_NODES {
        k := FindLocked(0);
        if k < MAX_NODES {
          SlotMeans(entries[..], id);
          PlaceKeeps(entries[..], Fresh(id));
          entries[k] := Fresh(id);
        }
      }
    }

    /** Overwrites a slot without changing whose it is. */
    method Rewrite(k: nat, e: Entry)
      requires Valid() && k < MAX_NODES && e.id != 0 && entries[k].id == e.id
      modifies entries
      ensures Valid() && entries[..] == old(entries[..])[k := e]
    {
      PutAnswers(entries[..], k, e, e.id);
      entries[k] := e;
    }
  
    /** Restores a slot to what it held before, unless its node is gone. */
    method RestoreEntry(id: u32, previous: Entry)
      requires Valid() && previous.id == id
      modifies entries
      ensures Valid()
      ensures entries[..] == if id != 0 && Find(old(entries[..]), id) < MAX_NODES
                             then old(entries[..])[Find(old(entries[..]), id) := previous] else old(entries[..])
    {
      hide Distinct, Find;
      if id == 0 {
        return;
      }
      var k := FindLocked(id);
      if k < MAX_NODES {
        Rewrite(k, previous);
      }
    }

    method SeedEntryFromCluster(id: u32, peers: seq<Peer>) returns (found: bool)
      requires Valid()
      modifies entries
      ensures Valid() && entries[..] == Seeded(old(entries[..]), id, peers)
      ensures !HasId(old(entries[..]), id) ==> (found <==> id != 0 && HasId(entries[..], id))
    {
      hide Distinct, Find, CM.Find;
      if id == 0 {
        return false;
      }
      var p := 0;
      while p < |peers| && peers[p].id != id
        invariant p <= |peers| && forall j :: 0 <= j < p ==> peers[j].id != id
      {
        p := p + 1;
      }
      CM.FindFirst(peers, id, p);
      if p == |peers| {
        return false;
      }
      ghost var before := entries[..];
      var k := Obtain(id);
      if k == MAX_NODES {
        return false;
      }
      SlotMeans(before, id);
      hide SlotFor, Occupant;
      Rewrite(k, Refreshed(entries[k].(lastSeen := peers[p].lastSeen, cluster := peers[p].state)));
      assert entries[..][k].id == id;
      return true;
    }

    /** The entries worth saving, as they would be after a boot. */
    method BuildBlobLocked() returns (blob: seq<Entry>)
      requires Valid()
      ensures Valid() && View() == old(View()) && blob == BuildBlob(entries[..])
    {
      hide Distinct, ResetRuntime, ShouldPersist, BuildBlob;
      ghost var s := entries[..];
      assert s[0..] == s;
      blob := [];
      var i := 0;
      while i < MAX_NODES
        invariant i <= MAX_NODES && |blob| <= i && entries[..] == s && blob + BuildBlob(s[i..]) == BuildBlob(s)
      {
        BlobNext(s, i);
        if ShouldPersist(entries[i]) && |blob| < MAX_NODES {
          blob := blob + [ResetRuntime(entries[i])];
        }
        i := i + 1;
      }
      BlobEnd(s);
    }

    /** One attempt to write the blob; `ok` says whether the flash accepted it. */
    method SaveBlob(blob: seq<Entry>, ok: bool)
      modifies this`flash
      ensures flash == if ok then Current(blob) else old(flash)
    {
      if ok {
        flash := Current(blob);
      }
    }

    method LoadBlob() returns (loaded: bool, blob: seq<Entry>)
      ensures blob == BlobOf(flash) && (!loaded ==> blob == [])
    {
      match flash
      case Blank =>
        return false, [];
      case Current(b) =>
        if |b| > MAX_NODES {
          return false, [];
        }
        return true, b;
      case Legacy(b) =>
        if |b| > MAX_NODES {
          return false, [];
        }
        blob := [];
        var i := 0;
        while i < |b|
          invariant i <= |b| && |blob| == i && forall j :: 0 <= j < i ==> blob[j] == Migrate(b[j])
        {
          blob := blob + [Migrate(b[i])];
          i := i + 1;
        }
        return true, blob;
    }

    method Wipe()
      requires entries.Length == MAX_NODES
      modifies entries
      ensures forall j :: 0 <= j < MAX_NODES ==> entries[j] == EMPTY
    {
      var i := 0;
      while i < MAX_NODES
        invariant i <= MAX_NODES && forall j :: 0 <= j < i ==> entries[j] == EMPTY
      {
        entries[i] := EMPTY;
        i := i + 1;
      }
    }

    method Fill(blob: seq<Entry>)
      requires entries.Length == MAX_NODES && |blob| <= MAX_NODES
      requires forall j :: 0 <= j < MAX_NODES ==> entries[j] == EMPTY
      modifies entries
      ensures entries[..] == ResetAll(blob) + seq(MAX_NODES - |blob|, _ => EMPTY)
    {
      var i := 0;
      while i < |blob|
        invariant i <= |blob|
        invariant forall j :: 0 <= j < i ==> entries[j] == ResetRuntime(blob[j])
        invariant forall j :: i <= j < MAX_NODES ==> entries[j] == EMPTY
      {
        entries[i] := ResetRuntime(blob[i]);
        i := i + 1;
      }
    }

    method Init()
      requires entries.Length == MAX_NODES
      modifies this, entries
      ensures View() == Boot(old(flash)) && initialized && (Loadable(old(flash)) ==> Valid())
    {
      hide Distinct, ResetAll, BlobOf;
      Wipe();
      lastSync := 0;
      var loaded, blob := LoadBlob();
      if loaded {
        Fill(blob);
      }
      assert entries[..] == Booted(flash);
      if Loadable(flash) { BootIsFaithful(flash); }
      hide Booted;
      initialized := true;
    }

    method ResetAllRuntime()
      requires Valid()
      modifies entries
      ensures Valid() && entries[..] == ResetAll(old(entries[..]))
    {
      hide Distinct;
      ghost var before := entries[..];
      var i := 0;
      while i < MAX_NODES
        invariant i <= MAX_NODES
        invariant forall j :: 0 <= j < i ==> entries[j] == ResetRuntime(before[j])
        invariant forall j :: i <= j < MAX_NODES ==> entries[j] == before[j]
      {
        entries[i] := ResetRuntime(entries[i]);
        i := i + 1;
      }
      ResetKeeps(before);
      assert entries[..] == ResetAll(before);
    }

    method Track(p: Peer, self: u32)
      requires Valid()
      modifies entries
      ensures Valid() && entries[..] == Tracked(old(entries[..]), p, self)
    {
      hide Distinct, Find;
      if p.id == 0 || p.id == self {
        return;
      }
      ghost var before := entries[..];
      var k := Obtain(p.id);
      if k == MAX_NODES {
        return;
      }
      SlotMeans(before, p.id);
      var health := if p.state == CM.ONLINE then 100 else if p.state == CM.SUSPECT then 50 else 0;
      Rewrite(k, Refreshed(entries[k].(lastSeen := p.lastSeen, cluster := p.state, health := health)));
    }

    /** `peers` and `self` are what the cluster manager reports at the time. */
    method Process(now: u32, peers: seq<Peer>, self: u32)
      requires Valid()
      modifies this`lastSync, entries
      ensures Valid() && View() == if initialized then Synchronized(old(View()), now, peers, self) else old(View())
    {
      hide Distinct, Find, TrackedAll, Tracked;
      if !initialized || Sub32(now, lastSync) < SYNC_MS {
        return;
      }
      lastSync := now;
      ResetAllRuntime();
      ghost var clean := entries[..];
      assert TrackedAll(clean, peers[..0], self) == clean by { TrackNone(clean, self); }
      var i := 0;
      while i < |peers|
        invariant i <= |peers| && lastSync == now && Valid() && entries[..] == TrackedAll(clean, peers[..i], self)
      {
        TrackNext(clean, peers, self, i);
        Track(peers[i], self);
        i := i + 1;
      }
      assert peers[..i] == peers;
      if self != 0 {
        var k := FindLocked(self);
        if k < MAX_NODES {
          Rewrite(k, entries[k].(cluster := CM.ONLINE, health := 100, reason := REASON_NONE, caps := RECOVERY_CAPS));
        }
      }
    }

    method NoteTransport(id: u32, transport: u8, ip: u32) returns (updated: bool)
      requires Valid()
      modifies entries
      ensures Valid() && entries[..] == Noted(old(entries[..]), id, transport, ip)
      ensures updated <==> id != 0 && SlotFor(old(entries[..]), id) < MAX_NODES
    {
      hide Distinct, Find;
      if id == 0 {
        return false;
      }
      ghost var before := entries[..];
      var mapped := MapTransport(transport);
      var k := Obtain(id);
      if k == MAX_NODES {
        return false;
      }
      SlotMeans(before, id);
      var e := entries[k];
      if ip != 0 {
        e := e.(ip := ip);
      }
      if mapped != TRANSPORT_NONE {
        e := e.(transport := mapped);
      }
      Rewrite(k, e.(reason := OfflineReason(e)));
      return true;
    }
  
    method GetState(id: u32) returns (state: u8)
      requires Valid()
      ensures state == Answer(entries[..], id).state
    {
      hide Distinct, Find;
      if id == 0 {
        return DISCOVERED;
      }
      var k := FindLocked(id);
      state := if k < MAX_NODES then entries[k].state else DISCOVERED;
    }

    method IsKnown(id: u32) returns (known: bool)
      requires Valid()
      ensures known <==> id != 0 && exists k :: 0 <= k < MAX_NODES && entries[k].id == id
    {
      hide Distinct;
      if id == 0 {
        return false;
      }
      var k := FindLocked(id);
      known := k < MAX_NODES;
    }

    method IsAdopted(id: u32) returns (adopted: bool)
      requires Valid()
      ensures adopted <==> Answer(entries[..], id).state >= ADOPTED
    {
      var state := GetState(id);
      adopted := state >= ADOPTED;
    }

    method IsOperational(id: u32) returns (operational: bool)
      requires Valid()
      ensures operational <==> Answer(entries[..], id).state >= ACTIVE
    {
      var state := GetState(id);
      operational := state >= ACTIVE;
    }

    /** Finds a node, making an entry for it first if only the cluster knows it. */
    method FindOrSeed(id: u32, peers: seq<Peer>) returns (k: nat)
      requires Valid() && id != 0
      modifies entries
      ensures Valid() && entries[..] == if HasId(old(entries[..]), id) then old(entries[..])
              else Seeded(old(entries[..]), id, peers)
      ensures k == Find(entries[..], id)
    {
      hide Distinct, Find, Seeded;
      k := FindLocked(id);
      if k == MAX_NODES {
        var found := SeedEntryFromCluster(id, peers);
        if found {
          k := FindLocked(id);
        }
      }
    }

    /** Saves the table, or else puts the entry back. */
    method SaveOrRestore(id: u32, previous: Entry, saved: bool) returns (ok: bool)
      requires Valid() && id != 0 && previous.id == id
      modifies this`flash, entries
      ensures Valid() && ok == saved
      ensures saved ==> entries[..] == old(entries[..]) && flash == Current(BuildBlob(entries[..]))
      ensures !saved ==> flash == old(flash)
      ensures !saved ==> entries[..] == if Find(old(entries[..]), id) < MAX_NODES
                                        then old(entries[..])[Find(old(entries[..]), id) := previous]
                                          else old(entries[..])
    {
      hide Distinct, Find, BuildBlob;
      var blob := BuildBlobLocked();
      SaveBlob(blob, saved);
      if saved {
        return true;
      }
      RestoreEntry(id, previous);
      return false;
    }

    method Adopt(id: u32, peers: seq<Peer>, saved: bool) returns (ok: bool)
      requires Valid()
      modifies this`flash, entries
      ensures Valid() && View() == Administer(old(View()), id, Edit.Adopt, peers, saved)
      ensures ok <==> Attempted(old(entries[..]), id, Edit.Adopt, peers) && saved
    {
      hide Distinct, Find, Seeded, BuildBlob;
      if id == 0 {
        return false;
      }
      var k := FindOrSeed(id, peers);
      if k == MAX_NODES {
        return false;
      }
      var previous := entries[k];
      ghost var found := entries[..];
      RollbackRestores(found, k, Edited(previous, Edit.Adopt));
      if entries[k].state < ADOPTED {
        Rewrite(k, entries[k].(state := ADOPTED));
      }
      assert entries[..] == found[k := Edited(previous, Edit.Adopt)];
      ok := SaveOrRestore(id, previous, saved);
    }

    method Configure(id: u32, profile: string, template: string, peers: seq<Peer>, saved: bool) returns (ok: bool)
      requires Valid()
      modifies this`flash, entries
      ensures Valid() && View() == Administer(old(View()), id, Edit.Configure(profile, template), peers, saved)
      ensures ok <==> Attempted(old(entries[..]), id, Edit.Configure(profile, template), peers) && saved
    {
      hide Distinct, Find, Seeded, BuildBlob, SupportedProfile, ValidTemplate;
      var goodProfile := CheckProfile(profile);
      var goodTemplate := CheckTemplate(template);
      if id == 0 || !goodProfile || !goodTemplate {
        return false;
      }
      var k := FindOrSeed(id, peers);
      if k == MAX_NODES {
        return false;
      }
      var previous := entries[k];
      RollbackRestores(entries[..], k, Edited(previous, Edit.Configure(profile, template)));
      Rewrite(k, entries[k].(profile := CopyText(profile), template := CopyText(template),
                             state := if previous.state >= ACTIVE then ACTIVE else CONFIGURED));
      ok := SaveOrRestore(id, previous, saved);
    }

    method Activate(id: u32, peers: seq<Peer>, saved: bool) returns (ok: bool)
      requires Valid()
      modifies this`flash, entries
      ensures Valid() && View() == Administer(old(View()), id, Edit.Activate, peers, saved)
      ensures ok <==> Attempted(old(entries[..]), id, Edit.Activate, peers) && saved
    {
      hide Distinct, Find, Seeded, BuildBlob;
      if id == 0 {
        return false;
      }
      var k := FindOrSeed(id, peers);
      if k == MAX_NODES || entries[k].state < ADOPTED {
        return false;
      }
      var previous := entries[k];
      RollbackRestores(entries[..], k, Edited(previous, Edit.Activate));
      Rewrite(k, entries[k].(state := ACTIVE));
      ok := SaveOrRestore(id, previous, saved);
    }

    method Revoke(id: u32, saved: bool) returns (ok: bool)
      requires Valid()
      modifies this`flash, entries
      ensures Valid() && View() == Administer(old(View()), id, Edit.Revoke, [], saved)
      ensures ok <==> Attempted(old(entries[..]), id, Edit.Revoke, []) && saved
    {
      hide Distinct, Find, Seeded, BuildBlob;
      if id == 0 {
        return false;
      }
      var k := FindLocked(id);
      if k == MAX_NODES {
        return false;
      }
      var previous := entries[k];
      RollbackRestores(entries[..], k, Edited(previous, Edit.Revoke));
      Rewrite(k, entries[k].(state := DISCOVERED, profile := "", template := ""));
      ok := SaveOrRestore(id, previous, saved);
    }

    method Replace(oldId: u32, newId: u32, saved: bool) returns (ok: bool)
      requires Valid()
      modifies this`flash, entries
      ensures Valid() && View() == Replaced(old(View()), oldId, newId, saved)
      ensures ok <==> Replaceable(old(entries[..]), oldId, newId) && saved
    {
      hide Distinct, Find, BuildBlob;
      if oldId == 0 || newId == 0 || oldId == newId {
        return false;
      }
      var o := FindLocked(oldId);
      if o == MAX_NODES {
        return false;
      }
      var previous := entries[o];
      var n := FindLocked(newId);
      if n == MAX_NODES {
        n := FindLocked(0);
      }
      if n == MAX_NODES {
        return false;
      }
      ghost var before := entries[..];
      entries[n] := entries[n].(id := newId, state := previous.state,
                                profile := CopyText(previous.profile), template := CopyText(previous.template));
      entries[o] := entries[o].(id := 0);
      SlotMeans(before, newId);
      assert entries[..] == Replacing(before, oldId, newId);
      ReplacingAnswers(before, oldId, newId);
      OldIsGone(before, oldId, newId);
      hide Replacing;
      ok := SaveOrRestore(oldId, previous, saved);
    }
  }
}
