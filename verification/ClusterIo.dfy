/** Who owns each I/O of the cluster: takeover when a node fails, return when it is back, and updates from peers. */
module ClusterIo {
  import opened Options
  import opened Words
  import opened EventBus
  import opened StateStore
  import NodeRegistry

  const MAX_IO: nat := 256

  datatype Io = Io(io: u32, owner: u32, original: u32, valid: bool)

  const FREE: Io := Io(0, 0, 0, false)

  /** What the node broadcasts; I/O ids travel in 16 bits. */
  datatype Message =
    | IoUpdate(io: u16, owner: u32, original: u32)
    | OutputCommand(target: u32, requester: u32, output: u16, value: i32)

  /** One node's table, and everything it has broadcast, oldest first. */
  datatype Ledger = Ledger(self: u32, table: seq<Io>, sent: seq<Message>)

  function Low16(x: u32): u16 {
    x % 0x1_0000
  }

  // ---------------------------------------------------------------------------
  // Looking up
  // ---------------------------------------------------------------------------

  function Find(s: seq<Io>, io: u32): (k: nat)
    ensures k <= |s|
    ensures k < |s| ==> s[k].valid && s[k].io == io
    ensures forall j :: 0 <= j < k ==> !(s[j].valid && s[j].io == io)
    decreases |s|
  {
    if s == [] || (s[0].valid && s[0].io == io) then 0 else 1 + Find(s[1..], io)
  }

  function FindFree(s: seq<Io>): (k: nat)
    ensures k <= |s|
    ensures k < |s| ==> !s[k].valid
    ensures forall j :: 0 <= j < k ==> s[j].valid
    decreases |s|
  {
    if s == [] || !s[0].valid then 0 else 1 + FindFree(s[1..])
  }

  predicate Has(s: seq<Io>, io: u32) {
    Find(s, io) < |s|
  }

  /** The slot of an I/O, or else a free one. */
  function SlotFor(s: seq<Io>, io: u32): (k: nat)
    ensures k <= |s|
  {
    if Has(s, io) then Find(s, io) else FindFree(s)
  }

  /** `cluster_io_allocate_locked`: an unknown I/O is entered as the node's own. */
  function Claimed(l: Ledger, io: u32): Ledger {
    if Has(l.table, io) || FindFree(l.table) >= |l.table| then l
    else l.(table := l.table[FindFree(l.table) := Io(io, l.self, l.self, true)])
  }

  /** What the table says of an I/O: its owner and its original owner. */
  datatype Title = Title(owner: u32, original: u32)

  function Lookup(s: seq<Io>, io: u32): Option<Title> {
    if Has(s, io) then Some(Title(s[Find(s, io)].owner, s[Find(s, io)].original)) else None
  }

  /** `cluster_io_get_owner`, for which an unknown I/O is the node's own. */
  function OwnerOf(l: Ledger, io: u32): u32 {
    match Lookup(l.table, io) case None => l.self case Some(t) => t.owner
  }

  /** `cluster_io_is_local` */
  predicate Local(l: Ledger, io: u32) {
    l.self == 0 || OwnerOf(l, io) == l.self
  }

  // ---------------------------------------------------------------------------
  // The operations
  // ---------------------------------------------------------------------------

  function Assigned(l: Ledger, io: u32, owner: u32, original: u32): Ledger {
    if SlotFor(l.table, io) >= |l.table| then l
    else l.(table := l.table[SlotFor(l.table, io) := Io(io, owner, original, true)])
  }

  function Registered(l: Ledger, io: u32): Ledger {
    if io == 0 then l else Assigned(l, io, l.self, l.self)
  }

  /** A sweep over the table: taking over from a failed node, or giving back to one that returned. */
  datatype Sweep = Take(node: u32) | Return(node: u32)

  predicate Moves(e: Io, self: u32, sweep: Sweep) {
    && e.valid
    && match sweep
       case Take(node) => e.owner == node
       case Return(node) => e.original == node && e.owner == self
  }

  function Moved(e: Io, self: u32, sweep: Sweep): Io {
    if Moves(e, self, sweep) then e.(owner := if sweep.Take? then self else sweep.node) else e
  }

  function Update(e: Io): Message {
    IoUpdate(Low16(e.io), e.owner, e.original)
  }

  function Swept(s: seq<Io>, self: u32, sweep: Sweep): (r: seq<Io>)
    ensures |r| == |s| && forall k :: 0 <= k < |s| ==> r[k] == Moved(s[k], self, sweep)
  {
    if s == [] then [] else Swept(s[..|s| - 1], self, sweep) + [Moved(s[|s| - 1], self, sweep)]
  }

  /** One update per entry that moved. */
  function Announced(s: seq<Io>, self: u32, sweep: Sweep): seq<Message> {
    if s == [] then []
    else
      var e := s[|s| - 1];
      Announced(s[..|s| - 1], self, sweep) + if Moves(e, self, sweep) then [Update(Moved(e, self, sweep))] else []
  }

  function SweptLedger(l: Ledger, sweep: Sweep): Ledger {
    Ledger(l.self, Swept(l.table, l.self, sweep), l.sent + Announced(l.table, l.self, sweep))
  }

  /** `cluster_io_handle_node_offline`: only the master takes over. */
  function Offline(l: Ledger, node: u32, master: u32): Ledger {
    if l.self != master then l else SweptLedger(l, Take(node))
  }

  /** `cluster_io_sync_all` */
  function Synced(s: seq<Io>): seq<Message> {
    if s == [] then []
    else Synced(s[..|s| - 1]) + if s[|s| - 1].valid then [Update(s[|s| - 1])] else []
  }

  /** `cluster_io_handle_node_online` */
  function Online(l: Ledger, node: u32): Ledger {
    var d := SweptLedger(l, Return(node));
    d.(sent := d.sent + Synced(d.table))
  }

  /** The command that brings a returned node's output to the value held here. */
  function CommandFor(e: Io, self: u32, node: u32, store: Store): seq<Message> {
    if e.valid && e.owner == node && Low16(e.io) < MAX_ENTRIES
    then [OutputCommand(node, self, Low16(e.io), store.Read(Low16(e.io)))] else []
  }

  function Commands(s: seq<Io>, self: u32, node: u32, store: Store): seq<Message> {
    if s == [] then [] else Commands(s[..|s| - 1], self, node, store) + CommandFor(s[|s| - 1], self, node, store)
  }

  /** `cluster_io_sync_state_to_node` */
  function StateSent(l: Ledger, node: u32, store: Store): Ledger {
    if node == l.self then l else l.(sent := l.sent + Commands(l.table, l.self, node, store))
  }

  /** Whether updates about a node are taken seriously, given the registry's slots. */
  predicate Operational(self: u32, registry: seq<NodeRegistry.Entry>, node: u32) {
    node == 0 || node == self || NodeRegistry.Answer(registry, node).state >= NodeRegistry.ACTIVE
  }

  /** `cluster_io_handle_update` */
  function Updated(l: Ledger, io: u16, owner: u32, original: u32, registry: seq<NodeRegistry.Entry>): Ledger {
    if !Operational(l.self, registry, owner) || !Operational(l.self, registry, original) then l
    else
      var c := Claimed(l, io);
      if !Has(c.table, io) then c
      else if c.table[Find(c.table, io)].original == l.self && original != l.self then c
      else c.(table := c.table[Find(c.table, io) := Io(io, owner, original, true)])
  }

  // ---------------------------------------------------------------------------
  // What the operations do to the lookups
  // ---------------------------------------------------------------------------

  ghost predicate Distinct(s: seq<Io>) {
    forall i, j :: 0 <= i < j < |s| && s[i].valid && s[j].valid ==> s[i].io != s[j].io
  }

  lemma FindIs(s: seq<Io>, io: u32, k: nat)
    requires Distinct(s) && k < |s| && s[k].valid && s[k].io == io
    ensures Find(s, io) == k
  {
    hide Find;
  }

  lemma LookupMeans(s: seq<Io>, io: u32)
    requires Distinct(s)
    ensures forall k :: 0 <= k < |s| && s[k].valid && s[k].io == io ==>
            Lookup(s, io) == Some(Title(s[k].owner, s[k].original))
    ensures (forall k :: 0 <= k < |s| ==> !(s[k].valid && s[k].io == io)) ==> Lookup(s, io) == None
  {
    forall k | 0 <= k < |s| && s[k].valid && s[k].io == io
      ensures Lookup(s, io) == Some(Title(s[k].owner, s[k].original))
    {
      FindIs(s, io, k);
    }
    hide Find;
  }

  /** Writing an I/O into its slot changes that I/O's lookup only. */
  lemma PutLooksUp(s: seq<Io>, e: Io, io: u32)
    requires Distinct(s) && e.valid && SlotFor(s, e.io) < |s|
    ensures Distinct(s[SlotFor(s, e.io) := e])
    ensures Lookup(s[SlotFor(s, e.io) := e], io) == if io == e.io then Some(Title(e.owner, e.original))
            else Lookup(s, io)
  {
    var k := SlotFor(s, e.io);
    var t := s[k := e];
    assert forall j :: 0 <= j < |s| && j != k && s[j].valid ==> s[j].io != e.io by {
      if Has(s, e.io) { hide Find; }
    }
    assert Distinct(t);
    LookupMeans(s, io);
    LookupMeans(t, io);
    hide Lookup, Find, FindFree;
    if io == e.io { assert t[k].io == io; }
    else if j :| 0 <= j < |s| && s[j].valid && s[j].io == io { assert t[j] == s[j]; }
    else { assert forall j :: 0 <= j < |t| ==> !(t[j].valid && t[j].io == io); }
  }

  /** A sweep keeps every I/O in its slot, moves the owners it should, and no original owner. */
  lemma SweepLooksUp(s: seq<Io>, self: u32, sweep: Sweep, io: u32)
    requires Distinct(s)
    ensures Distinct(Swept(s, self, sweep))
    ensures Lookup(Swept(s, self, sweep), io) ==
              match Lookup(s, io)
              case None => None
              case Some(t) =>
                var e := Moved(Io(io, t.owner, t.original, true), self, sweep);
                Some(Title(e.owner, e.original))
  {
    var t := Swept(s, self, sweep);
    hide Swept;
    assert Distinct(t);
    LookupMeans(s, io);
    LookupMeans(t, io);
    hide Find, Lookup;
    if j :| 0 <= j < |s| && s[j].valid && s[j].io == io { assert t[j] == Moved(s[j], self, sweep); }
    else { assert forall j :: 0 <= j < |t| ==> !(t[j].valid && t[j].io == io); }
  }

  /** What a received update makes of an I/O it names, given what the table says of it. */
  function UpdateResult(l: Ledger, io: u16, owner: u32, original: u32): Option<Title> {
    match Lookup(l.table, io)
    case None =>
      if FindFree(l.table) >= |l.table| then None
      else if original != l.self then Some(Title(l.self, l.self)) else Some(Title(owner, original))
    case Some(t) =>
      if t.original == l.self && original != l.self then Some(t) else Some(Title(owner, original))
  }

  /**
   * An update from an admitted node sets a known remote I/O, is refused for a local one, and for an
   * unknown one that is not the node's own leaves it entered as the node's own.
   */
  lemma UpdateOutcome(l: Ledger, io: u16, owner: u32, original: u32, registry: seq<NodeRegistry.Entry>, q: u32)
    requires Distinct(l.table)
    ensures var n := Updated(l, io, owner, original, registry);
            && Distinct(n.table) && |n.table| == |l.table| && n.self == l.self && n.sent == l.sent
            && Lookup(n.table, q) ==
                 if q == io && Operational(l.self, registry, owner) && Operational(l.self, registry, original)
                 then UpdateResult(l, io, owner, original) else Lookup(l.table, q)
  {
    var c := Claimed(l, io);
    if !Has(l.table, io) && FindFree(l.table) < |l.table| {
      PutLooksUp(l.table, Io(io, l.self, l.self, true), q);
      PutLooksUp(l.table, Io(io, l.self, l.self, true), io);
    }
    hide Find, FindFree, Operational;
    if Has(c.table, io) {
      PutLooksUp(c.table, Io(io, owner, original, true), q);
    }
    hide Distinct;
  }

  // ---------------------------------------------------------------------------
  // Runs
  // ---------------------------------------------------------------------------

  /** What happens to a table outside the self test, the only caller of `cluster_io_set_owner`. */
  datatype Op =
    | RegisterLocal(id: u32)
    | Receive(io: u16, owner: u32, original: u32, registry: seq<NodeRegistry.Entry>)
    | NodeOffline(node: u32, master: u32)
    | NodeOnline(node: u32)

  function Apply(l: Ledger, op: Op): Ledger {
    match op
    case RegisterLocal(io) => Registered(l, io)
    case Receive(io, owner, original, registry) => Updated(l, io, owner, original, registry)
    case NodeOffline(node, master) => Offline(l, node, master)
    case NodeOnline(node) => Online(l, node)
  }

  function Run(l: Ledger, ops: seq<Op>): Ledger {
    if ops == [] then l else Apply(Run(l, ops[..|ops| - 1]), ops[|ops| - 1])
  }

  predicate IsOwn(t: Option<Title>, self: u32) {
    t.Some? && t.value.original == self
  }

  /** An I/O that was the node's own, or unknown, is still its own, or is its own now, or is still unknown. */
  ghost predicate KeepsOwn(l: Ledger, n: Ledger, io: u32) {
    && Distinct(n.table) && n.self == l.self
    && (IsOwn(Lookup(l.table, io), l.self) ==> IsOwn(Lookup(n.table, io), l.self))
    && (Lookup(l.table, io).None? ==> Lookup(n.table, io).None? || IsOwn(Lookup(n.table, io), l.self))
  }

  /** An operation keeps the node's own I/O its own, and enters any new I/O as its own. */
  lemma StepKeepsOwn(l: Ledger, op: Op, io: u32)
    requires Distinct(l.table)
    ensures KeepsOwn(l, Apply(l, op), io)
  {
    match op
    case RegisterLocal(id) =>
      if id != 0 && SlotFor(l.table, id) < |l.table| {
        PutLooksUp(l.table, Io(id, l.self, l.self, true), io);
      }
      hide Lookup, Distinct;
    case Receive(id, owner, original, registry) =>
      UpdateOutcome(l, id, owner, original, registry, io);
      hide Updated, Lookup, Distinct;
    case NodeOffline(node, master) =>
      SweepLooksUp(l.table, l.self, Take(node), io);
      hide Swept, Lookup, Distinct;
    case NodeOnline(node) =>
      SweepLooksUp(l.table, l.self, Return(node), io);
      hide Swept, Lookup, Distinct;
  }

  lemma KeepsOwnChain(l: Ledger, m: Ledger, n: Ledger, io: u32)
    requires KeepsOwn(l, m, io) && KeepsOwn(m, n, io)
    ensures KeepsOwn(l, n, io)
  {
    hide Lookup, Distinct;
  }

  /** Once its own, an I/O stays the node's own whatever peers send and whichever nodes fail and return. */
  lemma {:induction false} OwnStaysOwn(l: Ledger, ops: seq<Op>, io: u32)
    requires Distinct(l.table)
    ensures KeepsOwn(l, Run(l, ops), io)
  {
    if ops == [] {
    } else {
      var past := ops[..|ops| - 1];
      var m := Run(l, past);
      OwnStaysOwn(l, past, io);
      StepKeepsOwn(m, ops[|past|], io);
      hide Apply, KeepsOwn, Distinct;
      KeepsOwnChain(l, m, Apply(m, ops[|past|]), io);
    }
  }

  /** So a table that starts empty never comes to hold an I/O another node originally owns. */
  lemma UpdatesNeverBringRemoteIo(self: u32, ops: seq<Op>, io: u32)
    ensures var n := Run(Ledger(self, seq(MAX_IO, _ => FREE), []), ops);
            Lookup(n.table, io).Some? ==> Lookup(n.table, io).value.original == self
  {
    var l := Ledger(self, seq(MAX_IO, _ => FREE), []);
    assert Lookup(l.table, io) == None by { hide Find; }
    OwnStaysOwn(l, ops, io);
    hide Run, Lookup, Distinct;
  }

  // ---------------------------------------------------------------------------
  // Ownership as history
  // ---------------------------------------------------------------------------

  /** What becomes of the title of an I/O in the table. */
  function TitleAfter(t: Title, op: Op, self: u32, io: u32): Title {
    match op
    case RegisterLocal(id) => if id == io && id != 0 then Title(self, self) else t
    case Receive(id, owner, original, registry) =>
      if id == io && Operational(self, registry, owner) && Operational(self, registry, original)
         && !(t.original == self && original != self)
      then Title(owner, original) else t
    case NodeOffline(node, master) => if master == self && t.owner == node then t.(owner := self) else t
    case NodeOnline(node) => if t.original == node && t.owner == self then t.(owner := node) else t
  }

  function TitleReplay(t: Title, ops: seq<Op>, self: u32, io: u32): Title {
    if ops == [] then t else TitleAfter(TitleReplay(t, ops[..|ops| - 1], self, io), ops[|ops| - 1], self, io)
  }

  lemma {:induction false} ReplayAppends(t: Title, a: seq<Op>, b: seq<Op>, self: u32, io: u32)
    ensures TitleReplay(t, a + b, self, io) == TitleReplay(TitleReplay(t, a, self, io), b, self, io)
  {
    if b == [] {
      assert a + b == a;
    } else {
      ReplayAppends(t, a, b[..|b| - 1], self, io);
      assert (a + b)[..|a + b| - 1] == a + b[..|b| - 1];
      hide TitleAfter;
    }
  }

  lemma TitleStep(l: Ledger, op: Op, io: u32)
    requires Distinct(l.table) && Lookup(l.table, io).Some?
    ensures var n := Apply(l, op);
            && Distinct(n.table) && n.self == l.self
            && Lookup(n.table, io) == Some(TitleAfter(Lookup(l.table, io).value, op, l.self, io))
  {
    match op
    case RegisterLocal(id) =>
      if id != 0 && SlotFor(l.table, id) < |l.table| {
        PutLooksUp(l.table, Io(id, l.self, l.self, true), io);
      }
      assert Has(l.table, io) by { hide Find; }
      hide Find, FindFree, Distinct;
    case Receive(id, owner, original, registry) =>
      UpdateOutcome(l, id, owner, original, registry, io);
      hide Updated, Lookup, Distinct;
    case NodeOffline(node, master) =>
      SweepLooksUp(l.table, l.self, Take(node), io);
      hide Swept, Lookup, Distinct;
    case NodeOnline(node) =>
      SweepLooksUp(l.table, l.self, Return(node), io);
      hide Swept, Lookup, Distinct;
  }

  /** Over every run the title of an I/O in the table is the replay of the operations on it. */
  lemma {:induction false} TitleIsHistory(l: Ledger, ops: seq<Op>, io: u32)
    requires Distinct(l.table) && Lookup(l.table, io).Some?
    ensures var n := Run(l, ops);
            && Distinct(n.table) && n.self == l.self
            && Lookup(n.table, io) == Some(TitleReplay(Lookup(l.table, io).value, ops, l.self, io))
  {
    hide Distinct, Lookup, Apply, TitleAfter;
    if ops != [] {
      TitleIsHistory(l, ops[..|ops| - 1], io);
      TitleStep(Run(l, ops[..|ops| - 1]), ops[|ops| - 1], io);
    }
  }

  /** The operation is a failure or a return of another node, or is about another I/O. */
  predicate Spares(op: Op, self: u32, io: u32) {
    match op
    case RegisterLocal(id) => id != io
    case Receive(id, _, _, _) => id != io
    case NodeOffline(node, _) => node != self
    case NodeOnline(node) => node != self
  }

  /** Whether `n`'s I/O is taken after the operation, given whether it was before. */
  predicate TakenAfter(taken: bool, op: Op, self: u32, n: u32) {
    if op.NodeOffline? && op.node == n && op.master == self then true
    else if op.NodeOnline? && op.node == n then false
    else taken
  }

  /** A failure of `n` was handled as master since `n` last returned. */
  predicate TakenSince(ops: seq<Op>, self: u32, n: u32) {
    ops != [] && TakenAfter(TakenSince(ops[..|ops| - 1], self, n), ops[|ops| - 1], self, n)
  }

  lemma {:induction false} ReplayIsTaken(n: u32, ops: seq<Op>, self: u32, io: u32)
    requires forall i :: 0 <= i < |ops| ==> Spares(ops[i], self, io)
    ensures TitleReplay(Title(n, n), ops, self, io) == Title(if TakenSince(ops, self, n) then self else n, n)
  {
    if ops != [] {
      var past := ops[..|ops| - 1];
      assert forall i :: 0 <= i < |past| ==> past[i] == ops[i];
      ReplayIsTaken(n, past, self, io);
      assert Spares(ops[|past|], self, io);
      hide Operational;
    }
  }

  /**
   * After any sequence of failures and returns of other nodes, and of registrations and updates about
   * other I/O, an I/O that began with its original owner is with this node exactly when that owner's
   * failure was handled as master since its last return, and with its original owner otherwise; and the
   * original owner is the same.
   */
  lemma OwnershipIsHistory(l: Ledger, ops: seq<Op>, io: u32, n: u32)
    requires Distinct(l.table) && (forall i :: 0 <= i < |ops| ==> Spares(ops[i], l.self, io))
    requires Lookup(l.table, io) == Some(Title(n, n))
    ensures var d := Run(l, ops);
            && Distinct(d.table) && d.self == l.self
            && Lookup(d.table, io) == Some(Title(if TakenSince(ops, l.self, n) then l.self else n, n))
  {
    hide Distinct, Lookup, Run, TitleReplay, TakenSince, Spares;
    TitleIsHistory(l, ops, io);
    ReplayIsTaken(n, ops, l.self, io);
  }

  // ---------------------------------------------------------------------------
  // What is broadcast
  // ---------------------------------------------------------------------------

  /** A sweep announces exactly the entries it moves, each with its new owner and its original one. */
  lemma {:induction false} AnnouncesTheMoved(s: seq<Io>, self: u32, sweep: Sweep, m: Message)
    ensures m in Announced(s, self, sweep) <==>
            exists k :: 0 <= k < |s| && s[k].valid &&
              (if sweep.Take? then s[k].owner == sweep.node else s[k].original == sweep.node && s[k].owner == self) &&
              m == IoUpdate(s[k].io % 0x1_0000, if sweep.Take? then self else sweep.node, s[k].original)
  {
    if s != [] {
      var t := s[..|s| - 1];
      AnnouncesTheMoved(t, self, sweep, m);
      assert forall k :: 0 <= k < |t| ==> t[k] == s[k];
    }
  }

  /** A full sync announces exactly the entries in use. */
  lemma {:induction false} SyncsTheValid(s: seq<Io>, m: Message)
    ensures m in Synced(s) <==>
            exists k :: 0 <= k < |s| && s[k].valid && m == IoUpdate(s[k].io % 0x1_0000, s[k].owner, s[k].original)
  {
    if s != [] {
      var t := s[..|s| - 1];
      SyncsTheValid(t, m);
      assert forall k :: 0 <= k < |t| ==> t[k] == s[k];
    }
  }

  /** A node is sent exactly the values of the outputs that it owns and the state store has. */
  lemma {:induction false} SendsTheOwned(s: seq<Io>, self: u32, node: u32, store: Store, m: Message)
    ensures m in Commands(s, self, node, store) <==>
            exists k :: 0 <= k < |s| && s[k].valid && s[k].owner == node && s[k].io % 0x1_0000 < 256 &&
              m == OutputCommand(node, self, s[k].io % 0x1_0000, store.Read(s[k].io % 0x1_0000))
  {
    if s != [] {
      var t := s[..|s| - 1];
      SendsTheOwned(t, self, node, store, m);
      assert forall k :: 0 <= k < |t| ==> t[k] == s[k];
      hide Store.Read;
    }
  }

  /** What a ledger has sent since another. */
  function News(l: Ledger, n: Ledger): seq<Message>
    requires l.sent <= n.sent
  {
    n.sent[|l.sent|..]
  }

  /** The failure of a node has the master broadcast the I/O it takes over, and anyone else nothing. */
  lemma FailureBroadcasts(l: Ledger, node: u32, master: u32, m: Message)
    ensures l.sent <= Offline(l, node, master).sent
    ensures m in News(l, Offline(l, node, master)) <==>
            l.self == master &&
            exists k :: 0 <= k < |l.table| && l.table[k].valid && l.table[k].owner == node &&
              m == IoUpdate(l.table[k].io % 0x1_0000, l.self, l.table[k].original)
  {
    AnnouncesTheMoved(l.table, l.self, Take(node), m);
    hide Swept, Announced;
  }

  /** The return of a node has everyone broadcast the whole table as it is afterwards. */
  lemma ReturnBroadcasts(l: Ledger, node: u32, m: Message)
    ensures l.sent <= Online(l, node).sent
    ensures var t := Online(l, node).table;
            m in News(l, Online(l, node)) <==>
            exists k :: 0 <= k < |t| && t[k].valid && m == IoUpdate(t[k].io % 0x1_0000, t[k].owner, t[k].original)
  {
    var t := Online(l, node).table;
    AnnouncesTheMoved(l.table, l.self, Return(node), m);
    SyncsTheValid(t, m);
    hide Swept, Announced, Synced;
    var moved, all := Announced(l.table, l.self, Return(node)), Synced(t);
    assert News(l, Online(l, node)) == moved + all;
    if m in moved {
      var k :| 0 <= k < |l.table| && l.table[k].valid && l.table[k].original == node && l.table[k].owner == l.self &&
               m == IoUpdate(l.table[k].io % 0x1_0000, node, l.table[k].original);
      assert t[k] == Moved(l.table[k], l.self, Return(node));
    }
  }

  /** Another node is sent the values of its outputs; the node itself is sent nothing. */
  lemma StateSends(l: Ledger, node: u32, store: Store, m: Message)
    ensures var n := StateSent(l, node, store);
            && n.table == l.table && n.self == l.self && l.sent <= n.sent
            && (m in News(l, n) <==>
                  node != l.self &&
                  exists k :: 0 <= k < |l.table| && l.table[k].valid && l.table[k].owner == node &&
                    l.table[k].io % 0x1_0000 < 256 &&
                    m == OutputCommand(node, l.self, l.table[k].io % 0x1_0000, store.Read(l.table[k].io % 0x1_0000)))
  {
    SendsTheOwned(l.table, l.self, node, store, m);
    hide Commands, Store.Read;
  }

  // ---------------------------------------------------------------------------
  // Admission, assignment and locality
  // ---------------------------------------------------------------------------

  /** Updates count about nobody, about this node, and about nodes whose first registry slot is ACTIVE or better. */
  lemma AdmissionMeans(self: u32, registry: seq<NodeRegistry.Entry>, node: u32)
    ensures Operational(self, registry, node) <==>
            || node == 0 || node == self
            || exists k :: 0 <= k < |registry| && registry[k].id == node && registry[k].state >= 3 &&
                           forall j :: 0 <= j < k ==> registry[j].id != node
  {
    hide NodeRegistry.Find;
    var k := NodeRegistry.Find(registry, node);
    forall j | 0 <= j < |registry| && registry[j].id == node && forall i :: 0 <= i < j ==> registry[i].id != node
      ensures j == k
    {
    }
  }

  /** Assigning an I/O that is known, or that finds a free slot, sets its title and no other's. */
  lemma AssignOutcome(l: Ledger, io: u32, owner: u32, original: u32, q: u32)
    requires Distinct(l.table)
    ensures var n := Assigned(l, io, owner, original);
            && Distinct(n.table) && n.self == l.self && n.sent == l.sent && |n.table| == |l.table|
            && Lookup(n.table, q) ==
                 if q == io && (Lookup(l.table, io).Some? || exists k :: 0 <= k < |l.table| && !l.table[k].valid)
                 then Some(Title(owner, original)) else Lookup(l.table, q)
  {
    if SlotFor(l.table, io) < |l.table| { PutLooksUp(l.table, Io(io, owner, original, true), q); }
    hide Find, FindFree, Distinct;
  }

  /** Registering an output enters it as the node's own; id 0 stands for no output. */
  lemma RegisterOutcome(l: Ledger, io: u32, q: u32)
    requires Distinct(l.table)
    ensures var n := Registered(l, io);
            && Distinct(n.table) && n.self == l.self && n.sent == l.sent
            && Lookup(n.table, q) ==
                 if io != 0 && q == io &&
                    (Lookup(l.table, io).Some? || exists k :: 0 <= k < |l.table| && !l.table[k].valid)
                 then Some(Title(l.self, l.self)) else Lookup(l.table, q)
  {
    AssignOutcome(l, io, l.self, l.self, q);
    hide Lookup, Distinct, Assigned;
  }

  /** An I/O is local if the table does not know it, says so, or the node has no id yet. */
  lemma LocalMeans(l: Ledger, io: u32)
    ensures Local(l, io) <==> l.self == 0 || Lookup(l.table, io).None? || Lookup(l.table, io).value.owner == l.self
    ensures OwnerOf(l, io) == if Lookup(l.table, io).None? then l.self else Lookup(l.table, io).value.owner
  {
    hide Lookup;
  }

  // ---------------------------------------------------------------------------
  // The table in place
  // ---------------------------------------------------------------------------

  lemma FindFirst(s: seq<Io>, io: u32, k: nat)
    requires k <= |s| && forall j :: 0 <= j < k ==> !(s[j].valid && s[j].io == io)
    requires k < |s| ==> s[k].valid && s[k].io == io
    ensures Find(s, io) == k
  {
    hide Find;
  }

  lemma FreeFirst(s: seq<Io>, k: nat)
    requires k <= |s| && (forall j :: 0 <= j < k ==> s[j].valid) && (k < |s| ==> !s[k].valid)
    ensures FindFree(s) == k
  {
    hide FindFree;
  }

  lemma ClaimedIsFound(s: seq<Io>, io: u32, e: Io)
    requires SlotFor(s, io) < |s| && e.valid && e.io == io
    ensures Find(s[SlotFor(s, io) := e], io) == SlotFor(s, io)
  {
    FindFirst(s[SlotFor(s, io) := e], io, SlotFor(s, io));
  }

  lemma AnnouncedNext(s: seq<Io>, self: u32, sweep: Sweep, i: nat)
    requires i < |s|
    ensures Announced(s[..i + 1], self, sweep) ==
              Announced(s[..i], self, sweep) +
              if Moves(s[i], self, sweep) then [Update(Moved(s[i], self, sweep))] else []
  {
    assert s[..i + 1][..i] == s[..i];
  }

  lemma SyncedNext(s: seq<Io>, i: nat)
    requires i < |s|
    ensures Synced(s[..i + 1]) == Synced(s[..i]) + if s[i].valid then [Update(s[i])] else []
  {
    assert s[..i + 1][..i] == s[..i];
  }

  lemma CommandsNext(s: seq<Io>, self: u32, node: u32, store: Store, i: nat)
    requires i < |s|
    ensures Commands(s[..i + 1], self, node, store) == Commands(s[..i], self, node, store) +
            CommandFor(s[i], self, node, store)
  {
    assert s[..i + 1][..i] == s[..i];
  }

  lemma NothingToSend(self: u32, sweep: Sweep, node: u32, store: Store)
    ensures Announced([], self, sweep) == Synced([]) == Commands([], self, node, store) == []
  {}

  class Table {
    const entries: array<Io>
    var self: u32
    var sent: seq<Message>

    ghost predicate Valid() {
      entries.Length == MAX_IO
    }

    ghost function View(): Ledger
      reads this, entries
    {
      Ledger(self, entries[..], sent)
    }

    constructor (node: u32)
      ensures Valid() && fresh(entries) && View() == Ledger(node, seq(MAX_IO, _ => FREE), [])
    {
      entries := new Io[MAX_IO](_ => FREE);
      self, sent := node, [];
      new;
      assert entries[..] == seq(MAX_IO, _ => FREE);
    }

    method FindLocked(io: u32) returns (k: nat)
      requires Valid()
      ensures k == Find(entries[..], io)
    {
      k := 0;
      while k < MAX_IO && !(entries[k].valid && entries[k].io == io)
        invariant k <= MAX_IO && forall j :: 0 <= j < k ==> !(entries[j].valid && entries[j].io == io)
      {
        k := k + 1;
      }
      FindFirst(entries[..], io, k);
    }

    /** Finds an I/O's slot, or claims a free one for it as the node's own. */
    method AllocateLocked(io: u32) returns (k: nat)
      requires Valid()
      modifies entries
      ensures k == SlotFor(old(entries[..]), io) && View() == Claimed(old(View()), io)
    {
      hide Find, FindFree;
      k := FindLocked(io);
      if k < MAX_IO {
        return;
      }
      k := 0;
      while k < MAX_IO && entries[k].valid
        invariant k <= MAX_IO && forall j :: 0 <= j < k ==> entries[j].valid
      {
        k := k + 1;
      }
      FreeFirst(entries[..], k);
      if k < MAX_IO {
        entries[k] := Io(io, self, self, true);
      }
    }

    method RegisterLocal(io: u32)
      requires Valid()
      modifies entries
      ensures View() == Registered(old(View()), io)
    {
      if io == 0 {
        return;
      }
      SetOwner(io, self, self);
    }

    method SetOwner(io: u32, owner: u32, original: u32)
      requires Valid()
      modifies entries
      ensures View() == Assigned(old(View()), io, owner, original)
    {
      hide Find, FindFree;
      ghost var before := entries[..];
      var k := AllocateLocked(io);
      if k < MAX_IO {
        entries[k] := Io(io, owner, original, true);
        assert entries[..] == before[k := Io(io, owner, original, true)];
      }
    }

    method BroadcastUpdate(e: Io)
      modifies this`sent
      ensures sent == old(sent) + [Update(e)]
    {
      sent := sent + [IoUpdate(Low16(e.io), e.owner, e.original)];
    }

    /** Moves every entry the sweep is for, announcing each as it moves. */
    method SweepAll(sweep: Sweep)
      requires Valid()
      modifies this`sent, entries
      ensures View() == SweptLedger(old(View()), sweep)
    {
      ghost var before := entries[..];
      hide Announced, Swept, Update;
      NothingToSend(self, sweep, 0, Store([], [], EMPTY_BUS));
      assert before[..0] == [];
      var i := 0;
      while i < MAX_IO
        invariant i <= MAX_IO
        invariant forall j :: 0 <= j < i ==> entries[j] == Moved(before[j], self, sweep)
        invariant forall j :: i <= j < MAX_IO ==> entries[j] == before[j]
        invariant sent == old(sent) + Announced(before[..i], self, sweep)
      {
        AnnouncedNext(before, self, sweep, i);
        if Moves(entries[i], self, sweep) {
          entries[i] := entries[i].(owner := if sweep.Take? then self else sweep.node);
          BroadcastUpdate(entries[i]);
        }
        i := i + 1;
      }
      assert before[..i] == before;
      assert entries[..] == Swept(before, self, sweep);
    }

    method HandleNodeOffline(node: u32, master: u32)
      requires Valid()
      modifies this`sent, entries
      ensures View() == Offline(old(View()), node, master)
    {
      if self != master {
        return;
      }
      SweepAll(Take(node));
    }

    method SyncAll()
      requires Valid()
      modifies this`sent
      ensures sent == old(sent) + Synced(entries[..])
    {
      hide Synced, Update;
      NothingToSend(self, Take(0), 0, Store([], [], EMPTY_BUS));
      ghost var s := entries[..];
      assert s[..0] == [];
      var i := 0;
      while i < MAX_IO
        invariant i <= MAX_IO && sent == old(sent) + Synced(s[..i])
      {
        SyncedNext(s, i);
        if entries[i].valid {
          BroadcastUpdate(entries[i]);
        }
        i := i + 1;
      }
      assert s[..i] == s;
    }

    method HandleNodeOnline(node: u32)
      requires Valid()
      modifies this`sent, entries
      ensures View() == Online(old(View()), node)
    {
      hide Announced, Swept, Synced;
      SweepAll(Return(node));
      SyncAll();
    }

    method SyncStateToNode(node: u32, states: StateTable)
      requires Valid() && states.Valid()
      modifies this`sent
      ensures View() == StateSent(old(View()), node, states.View())
    {
      if node == self {
        return;
      }
      hide Commands, StateTable.Valid, StateTable.View;
      ghost var store := states.View();
      NothingToSend(self, Take(0), node, store);
      ghost var s := entries[..];
      assert s[..0] == [];
      var i := 0;
      while i < MAX_IO
        invariant i <= MAX_IO && states.Valid() && states.View() == store
        invariant sent == old(sent) + Commands(s[..i], self, node, store)
      {
        CommandsNext(s, self, node, store, i);
        var e := entries[i];
        if e.valid && e.owner == node {
          var found, value := states.GetInt(Low16(e.io));
          if found {
            sent := sent + [OutputCommand(node, self, Low16(e.io), value)];
          }
        }
        i := i + 1;
      }
      assert s[..i] == s;
    }

    method IsOperational(node: u32, registry: NodeRegistry.Table) returns (ok: bool)
      requires Valid() && registry.Valid()
      ensures ok <==> Operational(self, registry.entries[..], node)
    {
      if node == 0 || node == self {
        return true;
      }
      ok := registry.IsOperational(node);
    }

    method HandleUpdate(io: u16, owner: u32, original: u32, registry: NodeRegistry.Table)
      requires Valid() && registry.Valid()
      modifies entries
      ensures View() == Updated(old(View()), io, owner, original, old(registry.entries[..]))
    {
      hide Find, FindFree;
      var ok := IsOperational(owner, registry);
      var ok' := IsOperational(original, registry);
      if !ok || !ok' {
        return;
      }
      ghost var before := entries[..];
      var k := AllocateLocked(io);
      if k == MAX_IO {
        return;
      }
      ClaimedIsFound(before, io, entries[k]);
      if entries[k].valid && entries[k].original == self && original != self {
        return;
      }
      if entries[k].owner == owner && entries[k].original == original {
        assert entries[k] == Io(io, owner, original, true);
        return;
      }
      entries[k] := Io(io, owner, original, true);
    }

    method GetOwner(io: u32) returns (owner: u32)
      requires Valid()
      ensures owner == OwnerOf(View(), io)
    {
      hide Find;
      var k := FindLocked(io);
      owner := if k < MAX_IO then entries[k].owner else self;
    }

    method IsLocal(io: u32) returns (local: bool)
      requires Valid()
      ensures local <==> Local(View(), io)
    {
      hide Find;
      if self == 0 {
        return true;
      }
      var k := FindLocked(io);
      local := k == MAX_IO || entries[k].owner == self;
    }
  }
}
