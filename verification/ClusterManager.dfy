/** Cluster membership: ten nodes aged by their heartbeats, the events their changes publish, and the master. */
module ClusterManager {
  import opened Options
  import opened Words

  const MAX_NODES: nat := 10
  const HEARTBEAT_TIMEOUT_MS: u32 := 3000
  const SUSPECT_TIMEOUT_MS: u32 := 6000
  const TICK_MS: u32 := 1000

  const ONLINE: u8 := 0
  const SUSPECT: u8 := 1
  const OFFLINE: u8 := 2

  datatype Node = Node(id: u32, lastSeen: u32, state: u8)

  /** A slot with no node in it; an erased state reads as ONLINE. */
  const FREE: Node := Node(0, 0, ONLINE)

  datatype Kind = NodeOnline | NodeSuspect | NodeOffline | NodeDiscovered

  datatype Event = Event(id: u32, kind: Kind)

  /** The table, and every event published so far, oldest first. */
  datatype Cluster = Cluster(nodes: seq<Node>, self: u32, started: bool, lastRun: u32, events: seq<Event>)

  const NO_NODES: seq<Node> := [FREE, FREE, FREE, FREE, FREE, FREE, FREE, FREE, FREE, FREE]

  const POWER_UP: Cluster := Cluster(NO_NODES, 0, false, 0, [])

  function StateFromAge(age: u32): u8 {
    if age > SUSPECT_TIMEOUT_MS then OFFLINE else if age > HEARTBEAT_TIMEOUT_MS then SUSPECT else ONLINE
  }

  function KindOf(state: u8): Kind {
    if state == ONLINE then NodeOnline else if state == SUSPECT then NodeSuspect else NodeOffline
  }

  function Find(s: seq<Node>, id: u32): (k: nat)
    ensures k <= |s|
    ensures k < |s| ==> s[k].id == id
    ensures forall j :: 0 <= j < k ==> s[j].id != id
    decreases |s|
  {
    if s == [] || s[0].id == id then 0 else 1 + Find(s[1..], id)
  }

  predicate HasId(s: seq<Node>, id: u32) {
    Find(s, id) < |s|
  }

  /** A node's slot, or else a free one. */
  function SlotFor(s: seq<Node>, id: u32): (k: nat)
    ensures k <= |s|
  {
    if HasId(s, id) then Find(s, id) else Find(s, 0)
  }

  // ---------------------------------------------------------------------------
  // The master
  // ---------------------------------------------------------------------------

  predicate Eligible(n: Node) {
    n.id != 0 && n.state == ONLINE
  }

  /** `m` is the lowest eligible id, or 0 when there is none. */
  ghost predicate IsMaster(s: seq<Node>, m: u32) {
    && (forall k :: 0 <= k < |s| && Eligible(s[k]) ==> m != 0 && m <= s[k].id)
    && (m != 0 ==> exists k :: 0 <= k < |s| && Eligible(s[k]) && s[k].id == m)
  }

  /** The master after one more node. */
  function Lower(m: u32, n: Node): u32 {
    if Eligible(n) && (m == 0 || n.id < m) then n.id else m
  }

  /** `cluster_manager_get_master_from_snapshot` */
  function Master(s: seq<Node>): u32 {
    if s == [] then 0 else Lower(Master(s[..|s| - 1]), s[|s| - 1])
  }

  lemma {:induction false} MasterIsLowest(s: seq<Node>)
    ensures IsMaster(s, Master(s))
  {
    if s != [] {
      var t := s[..|s| - 1];
      MasterIsLowest(t);
      assert forall k :: 0 <= k < |t| ==> t[k] == s[k];
      hide Master;
      if Master(t) != 0 {
        var k :| 0 <= k < |t| && Eligible(t[k]) && t[k].id == Master(t);
        assert Eligible(s[k]);
      }
    }
  }

  lemma MasterIsUnique(s: seq<Node>, m: u32)
    requires IsMaster(s, m)
    ensures m == Master(s)
  {
    MasterIsLowest(s);
  }

  // ---------------------------------------------------------------------------
  // Aging
  // ---------------------------------------------------------------------------

  predicate Ages(n: Node, self: u32) {
    n.id != 0 && n.lastSeen != 0 && n.id != self
  }

  function Aged(n: Node, self: u32, now: u32): Node {
    if n.id == 0 || n.lastSeen == 0 then n
    else if n.id == self then n.(lastSeen := now, state := ONLINE)
    else n.(state := StateFromAge(Sub32(now, n.lastSeen)))
  }

  function AgedAll(s: seq<Node>, self: u32, now: u32): (r: seq<Node>)
    ensures |r| == |s| && forall k :: 0 <= k < |s| ==> r[k] == Aged(s[k], self, now)
  {
    if s == [] then [] else AgedAll(s[..|s| - 1], self, now) + [Aged(s[|s| - 1], self, now)]
  }

  /** The event a node's change of state calls for. */
  function Notice(n: Node, self: u32, now: u32): (e: seq<Event>)
    ensures |e| <= 1
  {
    var m := Aged(n, self, now);
    if Ages(n, self) && m.state != n.state then [Event(n.id, KindOf(m.state))] else []
  }

  function Notices(s: seq<Node>, self: u32, now: u32): (e: seq<Event>)
    ensures |e| <= |s|
  {
    if s == [] then [] else Notices(s[..|s| - 1], self, now) + Notice(s[|s| - 1], self, now)
  }

  // ---------------------------------------------------------------------------
  // The operations
  // ---------------------------------------------------------------------------

  predicate Due(c: Cluster, now: u32) {
    c.started && (c.lastRun == 0 || Sub32(now, c.lastRun) >= TICK_MS)
  }

  /** `cluster_manager_process` */
  function Processed(c: Cluster, now: u32): Cluster {
    if !Due(c, now) then c
    else c.(lastRun := now, nodes := AgedAll(c.nodes, c.self, now), events := c.events + Notices(c.nodes, c.self, now))
  }

  /** A node's entry, as found or as first created. */
  function Occupant(s: seq<Node>, id: u32): Node
    requires SlotFor(s, id) < |s|
  {
    if HasId(s, id) then s[SlotFor(s, id)] else Node(id, 0, OFFLINE)
  }

  /** What a heartbeat publishes, given the entry before it. */
  function Greetings(n: Node, self: u32): seq<Event> {
    (if n.id != self && n.state != ONLINE then [Event(n.id, NodeOnline)] else []) +
    (if n.state == OFFLINE && n.lastSeen == 0 then [Event(n.id, NodeDiscovered)] else [])
  }

  /** `cluster_manager_update_node` */
  function Heard(c: Cluster, id: u32, now: u32): Cluster {
    if SlotFor(c.nodes, id) >= |c.nodes| then c
    else
      var n := Occupant(c.nodes, id);
      c.(nodes := c.nodes[SlotFor(c.nodes, id) := n.(lastSeen := now, state := ONLINE)],
         events := c.events + Greetings(n, c.self))
  }

  /** `cluster_manager_remove_node` */
  function Removed(c: Cluster, id: u32): Cluster {
    if HasId(c.nodes, id) && id != 0 && id != c.self then c.(nodes := c.nodes[Find(c.nodes, id) := FREE]) else c
  }

  /** `cluster_manager_start` */
  function Started(c: Cluster, self: u32, now: u32): Cluster {
    if c.started then c
    else Cluster(NO_NODES[0 := Node(self, now, ONLINE)], self, true, 0, c.events)
  }

  // ---------------------------------------------------------------------------
  // What every run keeps
  // ---------------------------------------------------------------------------

  /** The kind of the last event about a node that told of its state. */
  function LastKind(log: seq<Event>, id: u32): Option<Kind> {
    if log == [] then None
    else
      var e := log[|log| - 1];
      if e.id == id && e.kind != NodeDiscovered then Some(e.kind) else LastKind(log[..|log| - 1], id)
  }

  ghost predicate Distinct(s: seq<Node>) {
    forall i, j :: 0 <= i < j < |s| && s[i].id != 0 ==> s[i].id != s[j].id
  }

  /**
   * No id is listed twice; a free slot reads as ONLINE, and so do the node itself and a node not seen since
   * clock 0.
   */
  ghost predicate Plain(s: seq<Node>, self: u32) {
    && |s| == MAX_NODES && Distinct(s)
    && (forall k :: 0 <= k < |s| ==> s[k].state <= OFFLINE)
    && forall k :: 0 <= k < |s| && (s[k].id == 0 || s[k].id == self || s[k].lastSeen == 0) ==> s[k].state == ONLINE
  }

  /** The last event about every other node tells its state. */
  ghost predicate Told(s: seq<Node>, self: u32, log: seq<Event>) {
    forall k :: 0 <= k < |s| && s[k].id != 0 && s[k].id != self ==> LastKind(log, s[k].id) == Some(KindOf(s[k].state))
  }

  ghost predicate Listed(s: seq<Node>, id: u32) {
    exists k :: 0 <= k < |s| && s[k].id == id
  }

  ghost predicate Named(log: seq<Event>) {
    forall i :: 0 <= i < |log| ==> log[i].id != 0
  }

  ghost predicate Inv(c: Cluster) {
    && Plain(c.nodes, c.self) && Told(c.nodes, c.self, c.events) && Named(c.events)
    && (c.self != 0 ==> c.started && Listed(c.nodes, c.self))
  }

  lemma LastKindStep(log: seq<Event>, e: seq<Event>, id: u32)
    requires |e| <= 1
    ensures LastKind(log + e, id) ==
              if e != [] && e[0].id == id && e[0].kind != NodeDiscovered then Some(e[0].kind) else LastKind(log, id)
  {
    if e == [] { assert log + e == log; } else { assert (log + e)[..|log|] == log; }
  }

  lemma NoticeTells(log: seq<Event>, n: Node, self: u32, now: u32, id: u32)
    requires id != 0 && id != self
    ensures LastKind(log + Notice(n, self, now), id) ==
              if n.id == id && Aged(n, self, now).state != n.state
              then Some(KindOf(Aged(n, self, now).state)) else LastKind(log, id)
  {
    LastKindStep(log, Notice(n, self, now), id);
    hide LastKind;
  }

  lemma {:induction false} NoticesSilent(log: seq<Event>, s: seq<Node>, self: u32, now: u32, id: u32)
    requires id != 0 && id != self && forall k :: 0 <= k < |s| ==> s[k].id != id
    ensures LastKind(log + Notices(s, self, now), id) == LastKind(log, id)
  {
    if s == [] {
      assert log + Notices(s, self, now) == log;
    } else {
      var t, n := s[..|s| - 1], s[|s| - 1];
      NoticesSilent(log, t, self, now, id);
      assert log + Notices(s, self, now) == (log + Notices(t, self, now)) + Notice(n, self, now);
      hide *;
      NoticeTells(log + Notices(t, self, now), n, self, now, id);
    }
  }

  /** After aging, the last event about a node tells its new state if that changed, and is as before if not. */
  lemma {:induction false} NoticesTell(log: seq<Event>, s: seq<Node>, self: u32, now: u32, k: nat)
    requires Distinct(s) && k < |s| && s[k].id != 0 && s[k].id != self
    ensures LastKind(log + Notices(s, self, now), s[k].id) ==
              if Aged(s[k], self, now).state != s[k].state
              then Some(KindOf(Aged(s[k], self, now).state)) else LastKind(log, s[k].id)
  {
    var t, n := s[..|s| - 1], s[|s| - 1];
    assert log + Notices(s, self, now) == (log + Notices(t, self, now)) + Notice(n, self, now);
    if k == |s| - 1 {
      assert forall j :: 0 <= j < |t| ==> t[j].id != s[k].id;
      hide *;
      NoticesSilent(log, t, self, now, s[k].id);
    } else {
      assert t[k] == s[k] && Distinct(t);
      assert n.id != s[k].id;
      hide *;
      NoticesTell(log, t, self, now, k);
    }
    NoticeTells(log + Notices(t, self, now), n, self, now, s[k].id);
  }

  lemma {:induction false} NoticesNamed(s: seq<Node>, self: u32, now: u32)
    ensures forall i :: 0 <= i < |Notices(s, self, now)| ==> Notices(s, self, now)[i].id != 0
  {
    if s != [] { NoticesNamed(s[..|s| - 1], self, now); }
  }

  lemma AgedState(s: seq<Node>, self: u32, now: u32)
    requires forall k :: 0 <= k < |s| ==> s[k].state <= OFFLINE
    ensures forall k :: 0 <= k < |s| ==> AgedAll(s, self, now)[k].state <= OFFLINE
  {}

  lemma ProcessedInv(c: Cluster, now: u32)
    requires Inv(c)
    ensures Inv(Processed(c, now))
  {
    if Due(c, now) {
      var d := Processed(c, now);
      NoticesNamed(c.nodes, c.self, now);
      hide LastKind, Notices, KindOf, StateFromAge;
      assert forall k :: 0 <= k < |d.nodes| ==> d.nodes[k].state <= OFFLINE by { AgedState(c.nodes, c.self, now); }
      assert forall k :: 0 <= k < |d.nodes| ==> d.nodes[k].id == c.nodes[k].id;
      assert Told(d.nodes, d.self, d.events) by {
        forall k | 0 <= k < |d.nodes| && d.nodes[k].id != 0 && d.nodes[k].id != d.self
          ensures LastKind(d.events, d.nodes[k].id) == Some(KindOf(d.nodes[k].state))
        {
          NoticesTell(c.events, c.nodes, c.self, now, k);
        }
      }
      hide Told;
      if Listed(c.nodes, c.self) {
        var k :| 0 <= k < |c.nodes| && c.nodes[k].id == c.self;
        assert d.nodes[k].id == c.self;
      }
    }
  }

  lemma GreetingsTell(log: seq<Event>, n: Node, self: u32, id: u32)
    ensures LastKind(log + Greetings(n, self), id) ==
              if n.id == id && n.id != self && n.state != ONLINE then Some(NodeOnline) else LastKind(log, id)
    ensures forall i :: 0 <= i < |Greetings(n, self)| ==> Greetings(n, self)[i].id == n.id
  {
    var a := if n.id != self && n.state != ONLINE then [Event(n.id, NodeOnline)] else [];
    var b := if n.state == OFFLINE && n.lastSeen == 0 then [Event(n.id, NodeDiscovered)] else [];
    assert log + Greetings(n, self) == (log + a) + b;
    LastKindStep(log, a, id);
    LastKindStep(log + a, b, id);
    hide LastKind;
  }

  /** The slot found for a heartbeat holds its sender already, or is free and the sender is nowhere. */
  lemma SlotMeans(s: seq<Node>, id: u32)
    requires SlotFor(s, id) < |s|
    ensures var k := SlotFor(s, id);
            && Occupant(s, id).id == id
            && (Occupant(s, id) == s[k] || (s[k].id == 0 && forall j :: 0 <= j < |s| ==> s[j].id != id))
  {
    hide Find;
  }

  lemma SilentSlot(n: Node, self: u32)
    requires n.state == ONLINE
    ensures Greetings(n, self) == []
  {}

  /** Overwriting a slot with its own node, or a free one with a node not listed, keeps the table plain. */
  lemma PutPlain(s: seq<Node>, self: u32, k: nat, n: Node)
    requires Plain(s, self) && k < |s| && n.state == ONLINE
    requires s[k].id == n.id || n.id == 0 || (s[k].id == 0 && forall j :: 0 <= j < |s| ==> s[j].id != n.id)
    ensures Plain(s[k := n], self)
    ensures forall id: u32 :: Listed(s, id) && (id != s[k].id || n.id == id) ==> Listed(s[k := n], id)
  {
    var t := s[k := n];
    forall id: u32 | Listed(s, id) && (id != s[k].id || n.id == id) ensures Listed(t, id) {
      var j :| 0 <= j < |s| && s[j].id == id;
      assert t[j].id == id;
    }
    assert forall j :: 0 <= j < |s| && j != k ==> t[j] == s[j];
    hide Listed;
  }

  /** Only the slot found for an id holds that id. */
  lemma OnlySlot(s: seq<Node>, id: u32)
    requires Distinct(s)
    ensures forall j :: 0 <= j < |s| && s[j].id == id && id != 0 ==> j == SlotFor(s, id)
  {
    hide Find;
  }

  lemma HeardInv(c: Cluster, id: u32, now: u32)
    requires Inv(c)
    ensures Inv(Heard(c, id, now))
  {
    if SlotFor(c.nodes, id) < |c.nodes| {
      var k, n := SlotFor(c.nodes, id), Occupant(c.nodes, id);
      var d := Heard(c, id, now);
      SlotMeans(c.nodes, id);
      OnlySlot(c.nodes, id);
      hide SlotFor, Occupant, HasId, Find, LastKind, Greetings, Distinct;
      PutPlain(c.nodes, c.self, k, d.nodes[k]);
      if id == 0 { SilentSlot(n, c.self); }
      assert Told(d.nodes, d.self, d.events) by {
        forall j | 0 <= j < |d.nodes| && d.nodes[j].id != 0 && d.nodes[j].id != d.self
          ensures LastKind(d.events, d.nodes[j].id) == Some(KindOf(d.nodes[j].state))
        {
          GreetingsTell(c.events, n, c.self, d.nodes[j].id);
          assert j == k || d.nodes[j] == c.nodes[j];
        }
      }
      GreetingsTell(c.events, n, c.self, id);
      hide Told, Plain;
    }
  }

  lemma RemovedInv(c: Cluster, id: u32)
    requires Inv(c)
    ensures Inv(Removed(c, id))
  {
    if HasId(c.nodes, id) && id != 0 && id != c.self {
      hide Find, LastKind, Distinct;
      PutPlain(c.nodes, c.self, Find(c.nodes, id), FREE);
    }
  }

  datatype Op =
    | Start(id: u32, now: u32)
    | Process(now: u32)
    | Heartbeat(id: u32, now: u32)
    | Remove(id: u32)

  /** Events are only ever added. */
  function Apply(c: Cluster, op: Op): (d: Cluster)
    ensures c.events <= d.events
  {
    match op
    case Start(id, now) => Started(c, id, now)
    case Process(now) => Processed(c, now)
    case Heartbeat(id, now) => Heard(c, id, now)
    case Remove(id) => Removed(c, id)
  }

  function Run(c: Cluster, ops: seq<Op>): Cluster {
    if ops == [] then c else Apply(Run(c, ops[..|ops| - 1]), ops[|ops| - 1])
  }

  lemma ApplyInv(c: Cluster, op: Op)
    requires Inv(c)
    ensures Inv(Apply(c, op))
  {
    match op
    case Start(id, now) =>
      if !c.started { assert Apply(c, op).nodes[0].id == id; }
    case Process(now) => ProcessedInv(c, now);
    case Heartbeat(id, now) => HeardInv(c, id, now);
    case Remove(id) => RemovedInv(c, id);
  }

  lemma {:induction false} RunInv(ops: seq<Op>)
    ensures Inv(Run(POWER_UP, ops))
  {
    if ops != [] {
      RunInv(ops[..|ops| - 1]);
      hide Inv, Apply;
      ApplyInv(Run(POWER_UP, ops[..|ops| - 1]), ops[|ops| - 1]);
    }
  }

  /**
   * In every run no id is listed twice; and for every other node in the table, the last
   * ONLINE, SUSPECT or OFFLINE event published about it tells its state.
   */
  lemma EventsTellStates(ops: seq<Op>)
    ensures var c := Run(POWER_UP, ops);
            && Distinct(c.nodes)
            && forall k :: 0 <= k < |c.nodes| && c.nodes[k].id != 0 && c.nodes[k].id != c.self ==>
                 var last := LastKind(c.events, c.nodes[k].id);
                 && (c.nodes[k].state == 0 <==> last == Some(NodeOnline))
                 && (c.nodes[k].state == 1 <==> last == Some(NodeSuspect))
                 && (c.nodes[k].state == 2 <==> last == Some(NodeOffline))
  {
    RunInv(ops);
    hide Run, LastKind;
  }

  /**
   * Once started with a nonzero id, a node is ONLINE in its own table whatever happens, so it sees a master
   * no higher than itself.
   */
  lemma SelfStaysOnline(ops: seq<Op>)
    ensures var c := Run(POWER_UP, ops);
            c.started && c.self != 0 ==>
              && (exists k :: 0 <= k < |c.nodes| && c.nodes[k].id == c.self && c.nodes[k].state == ONLINE)
              && 0 < Master(c.nodes) <= c.self
  {
    var c := Run(POWER_UP, ops);
    RunInv(ops);
    MasterIsLowest(c.nodes);
    hide Run, Told, Master;
    if c.started && c.self != 0 {
      var k :| 0 <= k < |c.nodes| && c.nodes[k].id == c.self;
      assert Eligible(c.nodes[k]);
    }
  }

  /**
   * What a heartbeat publishes, in every run: ONLINE and then DISCOVERED for a sender that is not in the
   * table and finds room; ONLINE alone for another node in the table that was not online; nothing otherwise.
   */
  lemma DiscoveryIsNews(ops: seq<Op>, id: u32, now: u32)
    requires id != 0
    ensures var c := Run(POWER_UP, ops);
            var news := Heard(c, id, now).events[|c.events|..];
            if Listed(c.nodes, id) then
              news == if id != c.self &&
                         (exists k :: 0 <= k < |c.nodes| && c.nodes[k].id == id && c.nodes[k].state != 0)
                      then [Event(id, NodeOnline)] else []
            else news == if Listed(c.nodes, 0) then [Event(id, NodeOnline), Event(id, NodeDiscovered)] else []
  {
    var c := Run(POWER_UP, ops);
    RunInv(ops);
    hide Run, Told, Named;
    ListedIsFound(c.nodes, id);
    ListedIsFound(c.nodes, 0);
    var d := Heard(c, id, now);
    if SlotFor(c.nodes, id) < |c.nodes| {
      var n := Occupant(c.nodes, id);
      assert d.events[|c.events|..] == Greetings(n, c.self);
      OnlySlot(c.nodes, id);
      SlotMeans(c.nodes, id);
      hide Listed, Find;
      if HasId(c.nodes, id) {
        assert n.state == OFFLINE ==> n.lastSeen != 0;
      } else {
        assert id != c.self;
      }
    } else {
      assert d.events[|c.events|..] == [];
    }
  }

  /** A heartbeat that finds room enters its sender as ONLINE and seen now, and touches no other entry. */
  lemma HeartbeatRefreshes(c: Cluster, id: u32, now: u32, other: Node)
    requires Inv(c) && id != 0
    ensures var d := Heard(c, id, now);
            && (Listed(c.nodes, id) || Listed(c.nodes, 0) ==> Node(id, now, 0) in d.nodes)
            && (other.id != id && other.id != 0 ==> (other in d.nodes <==> other in c.nodes))
            && d.self == c.self && d.started == c.started && d.lastRun == c.lastRun
  {
    hide Told, Named;
    ListedIsFound(c.nodes, id);
    ListedIsFound(c.nodes, 0);
    var d, k := Heard(c, id, now), SlotFor(c.nodes, id);
    if k < |c.nodes| {
      SlotMeans(c.nodes, id);
      hide Find, Listed, Greetings, Plain;
      assert d.nodes[k] == Node(id, now, 0);
      assert forall j :: 0 <= j < |c.nodes| && j != k ==> d.nodes[j] == c.nodes[j];
      assert c.nodes[k].id == id || c.nodes[k].id == 0;
    }
  }

  /** Removal forgets that node and no other, says nothing of it, and never applies to the node itself. */
  lemma RemovalForgets(c: Cluster, id: u32, other: Node)
    requires Inv(c) && id != 0
    ensures var d := Removed(c, id);
            && d.events == c.events && d.self == c.self
            && (other.id != id && other.id != 0 ==> (other in d.nodes <==> other in c.nodes))
            && (id == c.self ==> d == c)
            && (id != c.self ==> !Listed(d.nodes, id))
  {
    hide Told, Named;
    ListedIsFound(c.nodes, id);
    OnlySlot(c.nodes, id);
    var d := Removed(c, id);
    if HasId(c.nodes, id) && id != c.self {
      var k := Find(c.nodes, id);
      hide Find, Plain;
      assert forall j :: 0 <= j < |c.nodes| && j != k ==> d.nodes[j] == c.nodes[j] && d.nodes[j].id != id;
    }
  }

  /** The first start leaves the node alone in its table, ONLINE and seen now; another start changes nothing. */
  lemma StartEntersSelf(c: Cluster, id: u32, now: u32, n: Node)
    ensures var d := Started(c, id, now);
            && (c.started ==> d == c)
            && (!c.started ==> d.started && d.self == id && d.events == c.events && |d.nodes| == 10 &&
                               (n in d.nodes && n.id != 0 ==> n == Node(id, now, 0)) && Node(id, now, 0) in d.nodes)
  {
    var d := Started(c, id, now);
    assert !c.started ==> d.nodes[0] == Node(id, now, 0);
  }

  lemma ListedIsFound(s: seq<Node>, id: u32)
    ensures Listed(s, id) <==> HasId(s, id)
  {
    hide Find;
    if HasId(s, id) { assert s[Find(s, id)].id == id; }
  }

  /** Below one clock wrap since the last round, a round is due a second after it, and otherwise nothing happens. */
  lemma RoundIsDue(c: Cluster, ran: nat, at: nat)
    requires c.lastRun == Low32(ran) && ran <= at < ran + TWO32
    ensures Due(c, Low32(at)) <==> c.started && (c.lastRun == 0 || at - ran >= 1000)
    ensures !Due(c, Low32(at)) ==> Processed(c, Low32(at)) == c
    ensures Due(c, Low32(at)) ==> Processed(c, Low32(at)).lastRun == Low32(at)
  {
    ElapsedBound(at, ran);
  }

  /** Below one clock wrap of silence, a round of aging puts a node in the state its true silence calls for. */
  lemma SilenceIsSeen(c: Cluster, k: nat, seen: nat, at: nat)
    requires k < |c.nodes| && c.nodes[k].id != 0 && c.nodes[k].id != c.self
    requires c.nodes[k].lastSeen != 0 && c.nodes[k].lastSeen == Low32(seen)
    requires seen <= at < seen + TWO32 && Due(c, Low32(at))
    ensures Processed(c, Low32(at)).nodes[k] ==
            Node(c.nodes[k].id, Low32(seen), if at - seen > 6000 then 2 else if at - seen > 3000 then 1 else 0)
  {
    ElapsedBound(at, seen);
  }

  /** The operation is neither a heartbeat nor the removal of the node. */
  predicate Ignores(op: Op, id: u32) {
    !(op.Heartbeat? && op.id == id) && !(op.Remove? && op.id == id)
  }

  /** The node is in the table, last seen at this reading of the clock. */
  predicate SeenAt(s: seq<Node>, id: u32, lastSeen: u32) {
    exists k :: 0 <= k < |s| && s[k].id == id && s[k].lastSeen == lastSeen
  }

  lemma SeenStays(c: Cluster, op: Op, id: u32, lastSeen: u32)
    requires Inv(c) && c.started && id != 0 && id != c.self && Ignores(op, id) && SeenAt(c.nodes, id, lastSeen)
    ensures var d := Apply(c, op); d.started && d.self == c.self && SeenAt(d.nodes, id, lastSeen)
  {
    hide Told, Named, Plain;
    var k :| 0 <= k < |c.nodes| && c.nodes[k].id == id && c.nodes[k].lastSeen == lastSeen;
    var d := Apply(c, op);
    assert d.nodes[k].id == id && d.nodes[k].lastSeen == lastSeen by {
      match op
      case Start(_, _) =>
      case Process(now) => hide Notices, StateFromAge;
      case Heartbeat(from, now) =>
        if SlotFor(c.nodes, from) < |c.nodes| { SlotMeans(c.nodes, from); }
        hide Find, Greetings;
      case Remove(from) => hide Find;
    }
  }

  lemma {:induction false} SeenThroughout(c: Cluster, ops: seq<Op>, id: u32, lastSeen: u32)
    requires Inv(c) && c.started && id != 0 && id != c.self && SeenAt(c.nodes, id, lastSeen)
    requires forall i :: 0 <= i < |ops| ==> Ignores(ops[i], id)
    ensures var d := Run(c, ops); Inv(d) && d.started && d.self == c.self && SeenAt(d.nodes, id, lastSeen)
  {
    hide Inv, Apply, SeenAt, Ignores;
    if ops != [] {
      SeenThroughout(c, ops[..|ops| - 1], id, lastSeen);
      ApplyInv(Run(c, ops[..|ops| - 1]), ops[|ops| - 1]);
      SeenStays(Run(c, ops[..|ops| - 1]), ops[|ops| - 1], id, lastSeen);
    }
  }

  /**
   * Membership follows true silence: whatever the cluster does after a heartbeat that found room, and
   * before the next one, a round of aging finds its sender ONLINE up to 3, SUSPECT up to 6 and OFFLINE
   * beyond 6 seconds after it. The exception is a heartbeat at a clock reading of 0, which never ages.
   */
  lemma SilenceDecides(ops: seq<Op>, id: u32, seen: nat, quiet: seq<Op>, at: nat)
    requires var c := Run(POWER_UP, ops);
             c.started && id != 0 && id != c.self && (Listed(c.nodes, id) || Listed(c.nodes, 0))
    requires Low32(seen) != 0 && seen <= at < seen + TWO32
    requires forall i :: 0 <= i < |quiet| ==> Ignores(quiet[i], id)
    ensures var d := Run(Heard(Run(POWER_UP, ops), id, Low32(seen)), quiet);
            Due(d, Low32(at)) ==>
              Node(id, Low32(seen), if at - seen > 6000 then 2 else if at - seen > 3000 then 1 else 0)
              in Processed(d, Low32(at)).nodes
  {
    var c := Run(POWER_UP, ops);
    RunInv(ops);
    HeardInv(c, id, Low32(seen));
    HeartbeatRefreshes(c, id, Low32(seen), FREE);
    var h := Heard(c, id, Low32(seen));
    assert SeenAt(h.nodes, id, Low32(seen));
    hide Inv, Heard, Ignores;
    SeenThroughout(h, quiet, id, Low32(seen));
    var d := Run(h, quiet);
    var k :| 0 <= k < |d.nodes| && d.nodes[k].id == id && d.nodes[k].lastSeen == Low32(seen);
    if Due(d, Low32(at)) {
      hide Run, SeenAt;
      SilenceIsSeen(d, k, seen, at);
      assert Processed(d, Low32(at)).nodes[k] in Processed(d, Low32(at)).nodes;
    }
  }

  // ---------------------------------------------------------------------------
  // The manager in place
  // ---------------------------------------------------------------------------

  lemma FindFirst(s: seq<Node>, id: u32, k: nat)
    requires k <= |s| && (forall j :: 0 <= j < k ==> s[j].id != id) && (k < |s| ==> s[k].id == id)
    ensures Find(s, id) == k
  {
    hide Find;
  }

  lemma NoticesNext(s: seq<Node>, self: u32, now: u32, i: nat)
    requires i < |s|
    ensures Notices(s[..i + 1], self, now) == Notices(s[..i], self, now) + Notice(s[i], self, now)
  {
    assert s[..i + 1][..i] == s[..i];
  }

  lemma NoNotices(self: u32, now: u32)
    ensures Notices([], self, now) == []
  {}

  lemma MasterNext(s: seq<Node>, i: nat)
    requires i < |s|
    ensures Master(s[..i + 1]) == Lower(Master(s[..i]), s[i])
  {
    assert s[..i + 1][..i] == s[..i];
  }

  class Manager {
    const nodes: array<Node>
    /** The events of one round of aging, before they are published. */
    const pending: array<Event>
    var self: u32
    var started: bool
    var lastRun: u32
    var published: seq<Event>

    ghost predicate Valid()
      reads this
    {
      nodes.Length == MAX_NODES && pending.Length == MAX_NODES && nodes as object != pending as object
    }

    ghost function View(): Cluster
      reads this, nodes
    {
      Cluster(nodes[..], self, started, lastRun, published)
    }

    constructor ()
      ensures Valid() && View() == POWER_UP && fresh(nodes) && fresh(pending)
    {
      nodes := new Node[MAX_NODES](_ => FREE);
      pending := new Event[MAX_NODES](_ => Event(0, NodeOnline));
      self, started, lastRun, published := 0, false, 0, [];
      new;
      assert nodes[..] == POWER_UP.nodes;
    }

    method FindNode(id: u32) returns (k: nat)
      requires Valid()
      ensures k == Find(nodes[..], id)
    {
      k := 0;
      while k < MAX_NODES && nodes[k].id != id
        invariant k <= MAX_NODES && forall j :: 0 <= j < k ==> nodes[j].id != id
      {
        k := k + 1;
      }
      FindFirst(nodes[..], id, k);
    }

    /** Finds a node's slot, or claims a free one for it. */
    method GetOrCreate(id: u32) returns (k: nat)
      requires Valid()
      modifies nodes
      ensures k == SlotFor(old(nodes[..]), id)
      ensures nodes[..] == if k < MAX_NODES then old(nodes[..])[k := Occupant(old(nodes[..]), id)] else old(nodes[..])
    {
      hide Find;
      k := FindNode(id);
      if k == MAX_NODES {
        k := FindNode(0);
        if k < MAX_NODES {
          nodes[k] := Node(id, 0, OFFLINE);
        }
      }
    }

    method Start(id: u32, now: u32)
      requires Valid()
      modifies this, nodes
      ensures Valid() && View() == Started(old(View()), id, now)
    {
      if started {
        return;
      }
      var i := 0;
      while i < MAX_NODES
        invariant i <= MAX_NODES && forall j :: 0 <= j < i ==> nodes[j] == FREE
        modifies nodes
      {
        nodes[i] := FREE;
        i := i + 1;
      }
      self := id;
      ghost var blank := nodes[..];
      FindFirst(blank, 0, 0);
      FindFirst(blank, id, if id == 0 then 0 else MAX_NODES);
      hide Find;
      var k := GetOrCreate(id);
      if k < MAX_NODES {
        nodes[k] := nodes[k].(lastSeen := now, state := ONLINE);
      }
      started, lastRun := true, 0;
      assert nodes[..] == NO_NODES[0 := Node(id, now, ONLINE)];
    }

    /** Ages every node; the events called for fit the buffer, so none is lost. */
    method Refresh(now: u32) returns (count: nat)
      requires Valid()
      modifies nodes, pending
      ensures nodes[..] == AgedAll(old(nodes[..]), self, now)
      ensures count <= MAX_NODES && pending[..count] == Notices(old(nodes[..]), self, now)
    {
      ghost var before := nodes[..];
      hide AgedAll, Notices;
      count := 0;
      var i := 0;
      assert before[..0] == [];
      NoNotices(self, now);
      while i < MAX_NODES
        invariant i <= MAX_NODES && count <= i
        invariant forall j :: 0 <= j < i ==> nodes[j] == Aged(before[j], self, now)
        invariant forall j :: i <= j < MAX_NODES ==> nodes[j] == before[j]
        invariant pending[..count] == Notices(before[..i], self, now)
      {
        NoticesNext(before, self, now, i);
        count := RefreshNode(i, now, count);
        i := i + 1;
      }
      assert before[..i] == before;
      assert nodes[..] == AgedAll(before, self, now);
    }

    method RefreshNode(i: nat, now: u32, count: nat) returns (next: nat)
      requires Valid() && i < MAX_NODES && count <= i
      modifies nodes, pending
      ensures nodes[..] == old(nodes[..])[i := Aged(old(nodes[i]), self, now)]
      ensures count <= next <= count + 1
      ensures pending[..next] == old(pending[..count]) + Notice(old(nodes[i]), self, now)
    {
      var n := nodes[i];
      next := count;
      if n.id == 0 || n.lastSeen == 0 {
        return;
      }
      if n.id == self {
        nodes[i] := n.(lastSeen := now, state := ONLINE);
        return;
      }
      var state := StateFromAge(Sub32(now, n.lastSeen));
      nodes[i] := n.(state := state);
      if state != n.state && count < MAX_NODES {
        pending[count] := Event(n.id, KindOf(state));
        next := count + 1;
      }
    }

    method PublishEvents(count: nat)
      requires Valid() && count <= MAX_NODES
      modifies this`published
      ensures published == old(published) + pending[..count]
    {
      var i := 0;
      while i < count
        invariant i <= count && published == old(published) + pending[..i]
      {
        published := published + [pending[i]];
        i := i + 1;
      }
    }

    method Process(now: u32)
      requires Valid()
      modifies this`lastRun, this`published, nodes, pending
      ensures View() == Processed(old(View()), now)
    {
      hide AgedAll, Notices;
      if !started {
        return;
      }
      if lastRun != 0 && Sub32(now, lastRun) < TICK_MS {
        return;
      }
      lastRun := now;
      var count := Refresh(now);
      PublishEvents(count);
    }

    method UpdateNode(id: u32, now: u32)
      requires Valid()
      modifies this`published, nodes
      ensures View() == Heard(old(View()), id, now)
    {
      hide Find, HasId;
      ghost var before := nodes[..];
      var k := GetOrCreate(id);
      if k == MAX_NODES {
        return;
      }
      var oldState := nodes[k].state;
      var knownBefore := nodes[k].lastSeen != 0;
      var isNew := oldState == OFFLINE && !knownBefore;
      SlotMeans(before, id);
      hide SlotFor, Occupant;
      nodes[k] := nodes[k].(lastSeen := now, state := ONLINE);
      if id != self && oldState != ONLINE {
        published := published + [Event(id, NodeOnline)];
      }
      if isNew {
        published := published + [Event(id, NodeDiscovered)];
      }
    }

    method RemoveNode(id: u32)
      requires Valid()
      modifies nodes
      ensures View() == Removed(old(View()), id)
    {
      hide Find;
      var k := FindNode(id);
      if k < MAX_NODES && nodes[k].id != 0 && nodes[k].id != self {
        nodes[k] := FREE;
      }
    }

    method GetMaster() returns (m: u32)
      requires Valid()
      ensures m == Master(nodes[..]) && IsMaster(nodes[..], m)
    {
      m := 0;
      var i := 0;
      while i < MAX_NODES
        invariant i <= MAX_NODES && m == Master(nodes[..i])
      {
        MasterNext(nodes[..], i);
        assert nodes[..][..i] == nodes[..i] && nodes[..][..i + 1] == nodes[..i + 1];
        if nodes[i].id != 0 && nodes[i].state == ONLINE {
          if m == 0 || nodes[i].id < m {
            m := nodes[i].id;
          }
        }
        i := i + 1;
      }
      assert nodes[..i] == nodes[..];
      MasterIsLowest(nodes[..]);
    }
  }
}
