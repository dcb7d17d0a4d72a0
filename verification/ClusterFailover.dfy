/**
 * What a node does about membership events: it secures its outputs when a gateway is lost, and as
 * master takes over the I/O of failed nodes. And several such nodes together.
 */
module ClusterFailover {
  import opened Options
  import opened Words
  import opened StateStore
  import opened ClusterManager
  import FailSafe
  import IO = ClusterIo
  import NodeRegistry

  /** One node: what it thinks of the cluster, its I/O table, its outputs, and its registry's slots. */
  datatype Station = Station(cluster: Cluster, ledger: IO.Ledger, plant: FailSafe.Plant,
                             registry: seq<NodeRegistry.Entry>)

  const GATEWAY: string := "gateway"

  /** `cluster_failover_node_is_registered_gateway` */
  predicate IsGateway(registry: seq<NodeRegistry.Entry>, id: u32) {
    id != 0 && exists k :: 0 <= k < |registry| && registry[k].id == id && registry[k].profile == GATEWAY
  }

  function Guarded(st: Station, id: u32, reason: u8): Station {
    if id == st.ledger.self || !IsGateway(st.registry, id) then st
    else st.(plant := st.plant.SecureUpto(|st.plant.guards|, reason))
  }

  /** `cluster_failover_event_handler` */
  function Handled(st: Station, e: Event): Station {
    match e.kind
    case NodeOffline =>
      if e.id == st.ledger.self then st
      else
        var g := Guarded(st, e.id, FailSafe.NODE_OFFLINE);
        g.(ledger := IO.Offline(g.ledger, e.id, Master(g.cluster.nodes)))
    case NodeOnline =>
      if e.id == st.ledger.self then st
      else st.(ledger := IO.StateSent(IO.Online(st.ledger, e.id), e.id, st.plant.store))
    case NodeSuspect => Guarded(st, e.id, FailSafe.COMM_LOSS)
    case NodeDiscovered => st
  }

  /** The handler runs on each event in the order published, after the table has changed. */
  function HandledAll(st: Station, events: seq<Event>): Station {
    if events == [] then st else Handled(HandledAll(st, events[..|events| - 1]), events[|events| - 1])
  }

  /** What a node does: a membership operation, a registration, an update received, a change of its registry. */
  datatype Act =
    | Member(op: Op)
    | Register(id: u32)
    | Receive(io: u16, owner: u32, original: u32)
    | Admit(registry: seq<NodeRegistry.Entry>)

  /** A membership operation comes with the events it publishes handled. */
  function Stepped(st: Station, act: Act): Station {
    match act
    case Member(op) =>
      var c := ClusterManager.Apply(st.cluster, op);
      HandledAll(st.(cluster := c), c.events[|st.cluster.events|..])
    case Register(id) => st.(ledger := IO.Registered(st.ledger, id))
    case Receive(io, owner, original) => st.(ledger := IO.Updated(st.ledger, io, owner, original, st.registry))
    case Admit(registry) => st.(registry := registry)
  }

  function Lived(st: Station, acts: seq<Act>): Station {
    if acts == [] then st else Stepped(Lived(st, acts[..|acts| - 1]), acts[|acts| - 1])
  }

  // ---------------------------------------------------------------------------
  // A lost gateway
  // ---------------------------------------------------------------------------

  /**
   * When the loss or the silence of a registered gateway is handled, every enabled output is sent where
   * its policy's action for a lost peer says and, if its recovery is manual, latched with the reason;
   * the failure of any other node leaves the outputs alone.
   */
  lemma GatewayLossSecures(st: Station, e: Event, output: u16)
    requires st.plant.Valid() && output < MAX_ENTRIES && (e.kind == NodeOffline || e.kind == NodeSuspect)
    ensures var n := Handled(st, e);
            && n.plant.Valid()
            && (LostGateway(st, e.id) && st.plant.Known(output) && st.plant.At(output).policy.enabled ==>
                  var p := st.plant.At(output).policy;
                  && FailSafe.Gives(p.commLoss, st.plant.store.Read(output), p.safeValue, n.plant.store.Read(output))
                  && n.plant.Known(output)
                  && n.plant.At(output).active == (p.recovery == FailSafe.MANUAL)
                  && n.plant.At(output).lastReason ==
                     (if e.kind == NodeOffline then FailSafe.NODE_OFFLINE else FailSafe.COMM_LOSS))
            && (!LostGateway(st, e.id) ==> n.plant == st.plant)
  {
    var reason := if e.kind == NodeOffline then FailSafe.NODE_OFFLINE else FailSafe.COMM_LOSS;
    FailSafe.ApplyAllSettles(st.plant, reason, output);
    hide FailSafe.Find, IO.Offline, FailSafe.Plant.SecureUpto, FailSafe.Gives;
  }

  /** Another node that the registry lists as a gateway. */
  predicate LostGateway(st: Station, id: u32) {
    id != st.ledger.self && id != 0 && exists e :: e in st.registry && e.id == id && e.profile == "gateway"
  }

  /**
   * What an event has a node broadcast. For a failed node the master announces the I/O it takes over.
   * To a returned node everyone announces its whole table as it is then, and sends it the values of the
   * outputs that it owns. Nothing is sent about the node itself, a suspect or a newcomer.
   */
  lemma EventBroadcasts(st: Station, e: Event, m: IO.Message)
    ensures var n, self := Handled(st, e), st.ledger.self;
            var t, before := n.ledger.table, st.ledger.table;
            && n.cluster == st.cluster && n.registry == st.registry && st.ledger.sent <= n.ledger.sent
            && (e.kind == NodeOnline || e.kind == NodeDiscovered ==> n.plant == st.plant)
            && (m in IO.News(st.ledger, n.ledger) <==>
                  || (e.kind == NodeOffline && e.id != self && Master(st.cluster.nodes) == self &&
                      exists k :: 0 <= k < |before| && before[k].valid && before[k].owner == e.id &&
                        m == IO.IoUpdate(before[k].io % 0x1_0000, self, before[k].original))
                  || (e.kind == NodeOnline && e.id != self &&
                      exists k :: 0 <= k < |t| && t[k].valid &&
                        m == IO.IoUpdate(t[k].io % 0x1_0000, t[k].owner, t[k].original))
                  || (e.kind == NodeOnline && e.id != self &&
                      exists k :: 0 <= k < |t| && t[k].valid && t[k].owner == e.id && t[k].io % 0x1_0000 < 256 &&
                        m == IO.OutputCommand(e.id, self, t[k].io % 0x1_0000, st.plant.store.Read(t[k].io % 0x1_0000))))
  {
    var l := st.ledger;
    IO.FailureBroadcasts(l, e.id, Master(st.cluster.nodes), m);
    ReturnSends(l, e.id, st.plant.store, m);
    hide IO.Online, IO.Offline, IO.StateSent, IsGateway, Master, FailSafe.Plant.SecureUpto, Store.Read;
  }

  lemma ReturnSends(l: IO.Ledger, node: u32, store: Store, m: IO.Message)
    ensures var n := IO.StateSent(IO.Online(l, node), node, store);
            var t := n.table;
            && l.sent <= n.sent
            && (node != l.self ==>
                  (m in IO.News(l, n) <==>
                    || (exists k :: 0 <= k < |t| && t[k].valid &&
                          m == IO.IoUpdate(t[k].io % 0x1_0000, t[k].owner, t[k].original))
                    || (exists k :: 0 <= k < |t| && t[k].valid && t[k].owner == node && t[k].io % 0x1_0000 < 256 &&
                          m == IO.OutputCommand(node, l.self, t[k].io % 0x1_0000, store.Read(t[k].io % 0x1_0000)))))
  {
    var o := IO.Online(l, node);
    IO.ReturnBroadcasts(l, node, m);
    IO.StateSends(o, node, store, m);
    assert o.self == l.self;
    hide IO.Online, IO.StateSent, Store.Read;
    var n := IO.StateSent(o, node, store);
    assert n.sent[|l.sent|..] == o.sent[|l.sent|..] + n.sent[|o.sent|..];
  }

  // ---------------------------------------------------------------------------
  // Ownership follows the events
  // ---------------------------------------------------------------------------

  /** What an event has the I/O table do. */
  function EventDeeds(self: u32, e: Event, master: u32): seq<IO.Op> {
    if e.id == self then []
    else if e.kind == NodeOffline then [IO.NodeOffline(e.id, master)]
    else if e.kind == NodeOnline then [IO.NodeOnline(e.id)]
    else []
  }

  function EventsDeeds(self: u32, events: seq<Event>, master: u32): seq<IO.Op> {
    if events == [] then []
    else EventsDeeds(self, events[..|events| - 1], master) + EventDeeds(self, events[|events| - 1], master)
  }

  /** What an act has the I/O table do: each event is handled with the master the table then names. */
  function ActDeeds(st: Station, act: Act): seq<IO.Op> {
    match act
    case Member(op) =>
      var c := ClusterManager.Apply(st.cluster, op);
      EventsDeeds(st.ledger.self, c.events[|st.cluster.events|..], Master(c.nodes))
    case Register(id) => [IO.RegisterLocal(id)]
    case Receive(io, owner, original) => [IO.Receive(io, owner, original, st.registry)]
    case Admit(_) => []
  }

  /** What a whole life has the I/O table do. */
  function Deeds(st: Station, acts: seq<Act>): seq<IO.Op> {
    if acts == [] then []
    else Deeds(st, acts[..|acts| - 1]) + ActDeeds(Lived(st, acts[..|acts| - 1]), acts[|acts| - 1])
  }

  /** The I/O is in the table with title `t`. */
  ghost predicate Titled(st: Station, io: u32, t: IO.Title) {
    IO.Distinct(st.ledger.table) && IO.Lookup(st.ledger.table, io) == Some(t)
  }

  lemma HandledTitle(st: Station, e: Event, io: u32, t: IO.Title)
    requires Titled(st, io, t)
    ensures var n := Handled(st, e);
            && n.cluster == st.cluster && n.ledger.self == st.ledger.self
            && Titled(n, io, IO.TitleReplay(t, EventDeeds(st.ledger.self, e, Master(st.cluster.nodes)),
                                            st.ledger.self, io))
  {
    var self, master := st.ledger.self, Master(st.cluster.nodes);
    hide IO.Distinct, IO.Lookup, IO.Commands, IsGateway, Master;
    if e.id != self && e.kind == NodeOffline {
      IO.TitleStep(st.ledger, IO.NodeOffline(e.id, master), io);
      OneDeed(t, IO.NodeOffline(e.id, master), self, io);
    } else if e.id != self && e.kind == NodeOnline {
      IO.TitleStep(st.ledger, IO.NodeOnline(e.id), io);
      OneDeed(t, IO.NodeOnline(e.id), self, io);
    }
    hide IO.TitleAfter, IO.Offline, IO.Online;
  }

  lemma OneDeed(t: IO.Title, op: IO.Op, self: u32, io: u32)
    ensures IO.TitleReplay(t, [op], self, io) == IO.TitleAfter(t, op, self, io)
  {
    assert [op][..0] == [];
    hide IO.TitleAfter;
  }

  lemma {:induction false} HandledAllTitle(st: Station, events: seq<Event>, io: u32, t: IO.Title)
    requires Titled(st, io, t)
    ensures var n := HandledAll(st, events);
            && n.cluster == st.cluster && n.ledger.self == st.ledger.self
            && Titled(n, io, IO.TitleReplay(t, EventsDeeds(st.ledger.self, events, Master(st.cluster.nodes)),
                                            st.ledger.self, io))
  {
    hide Titled, Handled, EventDeeds, Master;
    if events != [] {
      var past, e := events[..|events| - 1], events[|events| - 1];
      var self, master := st.ledger.self, Master(st.cluster.nodes);
      var before := IO.TitleReplay(t, EventsDeeds(self, past, master), self, io);
      HandledAllTitle(st, past, io, t);
      HandledTitle(HandledAll(st, past), e, io, before);
      IO.ReplayAppends(t, EventsDeeds(self, past, master), EventDeeds(self, e, master), self, io);
    }
  }

  lemma SteppedTitle(st: Station, act: Act, io: u32, t: IO.Title)
    requires Titled(st, io, t)
    ensures var n := Stepped(st, act);
            && n.ledger.self == st.ledger.self
            && n.cluster == (if act.Member? then ClusterManager.Apply(st.cluster, act.op) else st.cluster)
            && Titled(n, io, IO.TitleReplay(t, ActDeeds(st, act), st.ledger.self, io))
  {
    hide HandledAll, EventsDeeds, ClusterManager.Apply, Master, IO.Distinct, IO.Lookup, IO.Registered, IO.Updated;
    match act
    case Member(op) =>
      var c := ClusterManager.Apply(st.cluster, op);
      HandledAllTitle(st.(cluster := c), c.events[|st.cluster.events|..], io, t);
    case Register(id) =>
      IO.TitleStep(st.ledger, IO.RegisterLocal(id), io);
      OneDeed(t, IO.RegisterLocal(id), st.ledger.self, io);
    case Receive(id, owner, original) =>
      IO.TitleStep(st.ledger, IO.Receive(id, owner, original, st.registry), io);
      OneDeed(t, IO.Receive(id, owner, original, st.registry), st.ledger.self, io);
    case Admit(_) =>
  }

  /** A node's own events, choice of master, registrations and updates determine every title in its table. */
  lemma {:induction false} TitlesFollowLife(st: Station, acts: seq<Act>, io: u32, t: IO.Title)
    requires Titled(st, io, t)
    ensures var n := Lived(st, acts);
            n.ledger.self == st.ledger.self && Titled(n, io, IO.TitleReplay(t, Deeds(st, acts), st.ledger.self, io))
  {
    hide Titled, Stepped, ActDeeds;
    if acts != [] {
      var past, act, self := acts[..|acts| - 1], acts[|acts| - 1], st.ledger.self;
      var m := Lived(st, past);
      TitlesFollowLife(st, past, io, t);
      SteppedTitle(m, act, io, IO.TitleReplay(t, Deeds(st, past), self, io));
      IO.ReplayAppends(t, Deeds(st, past), ActDeeds(m, act), self, io);
    }
  }

  /** Not a registration of the I/O, nor an update about it. */
  predicate AboutOthers(act: Act, io: u32) {
    (act.Register? ==> act.id != io) && (act.Receive? ==> act.io != io)
  }

  /**
   * In every life without registrations and updates about an I/O, which began with its original owner
   * `n`, the I/O is with this node exactly when it handled a failure of `n` while it named itself master,
   * and no return of `n` since; and otherwise it is with `n`.
   */
  lemma OwnershipFollowsEvents(st: Station, acts: seq<Act>, io: u32, n: u32)
    requires Titled(st, io, IO.Title(n, n))
    requires forall i :: 0 <= i < |acts| ==> AboutOthers(acts[i], io)
    ensures var taken := IO.TakenSince(Deeds(st, acts), st.ledger.self, n);
            Titled(Lived(st, acts), io, IO.Title(if taken then st.ledger.self else n, n))
  {
    TitlesFollowLife(st, acts, io, IO.Title(n, n));
    DeedsSpare(st, acts, io);
    hide Titled, Lived, Deeds, IO.TakenSince, IO.TitleReplay, IO.Spares;
    IO.ReplayIsTaken(n, Deeds(st, acts), st.ledger.self, io);
  }

  lemma {:induction false} EventsDeedsSpare(self: u32, events: seq<Event>, master: u32, io: u32)
    ensures forall i :: 0 <= i < |EventsDeeds(self, events, master)| ==>
            IO.Spares(EventsDeeds(self, events, master)[i], self, io)
  {
    if events != [] { EventsDeedsSpare(self, events[..|events| - 1], master, io); }
  }

  lemma {:induction false} HandlingKeepsCluster(st: Station, events: seq<Event>)
    ensures HandledAll(st, events).cluster == st.cluster && HandledAll(st, events).ledger.self == st.ledger.self
  {
    if events != [] { HandlingKeepsCluster(st, events[..|events| - 1]); }
    hide Master, IO.SweptLedger, IO.Synced, IO.Commands;
  }

  /** Each act does to the cluster what its operation says, and never changes the node's id. */
  lemma {:induction false} LifeOfCluster(st: Station, acts: seq<Act>)
    ensures Lived(st, acts).ledger.self == st.ledger.self
    ensures Lived(st, acts).cluster == ClusterManager.Run(st.cluster, Memberships(acts))
  {
    if acts != [] {
      var past, act := acts[..|acts| - 1], acts[|acts| - 1];
      var m := Lived(st, past);
      LifeOfCluster(st, past);
      hide HandledAll, ClusterManager.Apply, IO.Registered, IO.Updated;
      if act.Member? {
        var c := ClusterManager.Apply(m.cluster, act.op);
        HandlingKeepsCluster(m.(cluster := c), c.events[|m.cluster.events|..]);
        assert Memberships(acts)[..|Memberships(past)|] == Memberships(past);
      } else {
        assert Memberships(acts) == Memberships(past);
        TablesKeepSelf(m.ledger, act, m.registry);
      }
    }
  }

  lemma TablesKeepSelf(l: IO.Ledger, act: Act, registry: seq<NodeRegistry.Entry>)
    ensures act.Register? ==> IO.Registered(l, act.id).self == l.self
    ensures act.Receive? ==> IO.Updated(l, act.io, act.owner, act.original, registry).self == l.self
  {
    hide IO.Find, IO.FindFree, IO.Operational;
  }

  /** The membership operations of a life. */
  function Memberships(acts: seq<Act>): seq<Op> {
    if acts == [] then []
    else Memberships(acts[..|acts| - 1]) + if acts[|acts| - 1].Member? then [acts[|acts| - 1].op] else []
  }

  lemma {:induction false} DeedsSpare(st: Station, acts: seq<Act>, io: u32)
    requires forall i :: 0 <= i < |acts| ==> AboutOthers(acts[i], io)
    ensures forall i :: 0 <= i < |Deeds(st, acts)| ==> IO.Spares(Deeds(st, acts)[i], st.ledger.self, io)
  {
    if acts != [] {
      var past, act := acts[..|acts| - 1], acts[|acts| - 1];
      assert forall i :: 0 <= i < |past| ==> past[i] == acts[i];
      DeedsSpare(st, past, io);
      LifeOfCluster(st, past);
      var m := Lived(st, past);
      hide Lived, Master, Memberships, ClusterManager.Run, EventsDeeds, ClusterManager.Apply;
      if act.Member? {
        var c := ClusterManager.Apply(m.cluster, act.op);
        EventsDeedsSpare(m.ledger.self, c.events[|m.cluster.events|..], Master(c.nodes), io);
      }
    }
  }

  // ---------------------------------------------------------------------------
  // An online owner keeps its I/O
  // ---------------------------------------------------------------------------

  /** The I/O is with its original owner, or was taken by this node and that owner's last event is not ONLINE. */
  ghost predicate Home(l: IO.Ledger, log: seq<Event>, io: u32) {
    && IO.Distinct(l.table)
    && var t := IO.Lookup(l.table, io);
       t.None? || t.value.owner == t.value.original ||
       (t.value.owner == l.self && LastKind(log, t.value.original) != Some(NodeOnline))
  }

  /** One deed keeps a title home, given the events up to the one it answers. */
  lemma DeedKeepsHome(t: IO.Title, e: Event, master: u32, self: u32, log: seq<Event>, io: u32)
    requires t.owner == t.original || (t.owner == self && LastKind(log, t.original) != Some(NodeOnline))
    ensures var n := IO.TitleReplay(t, EventDeeds(self, e, master), self, io);
            n.original == t.original &&
            (n.owner == n.original || (n.owner == self && LastKind(log + [e], n.original) != Some(NodeOnline)))
  {
    LastKindStep(log, [e], t.original);
    OneDeed(t, IO.NodeOffline(e.id, master), self, io);
    OneDeed(t, IO.NodeOnline(e.id), self, io);
    hide LastKind;
  }

  lemma HandledHome(st: Station, e: Event, log: seq<Event>, io: u32)
    requires Home(st.ledger, log, io)
    ensures var n := Handled(st, e);
            n.cluster == st.cluster && n.ledger.self == st.ledger.self && Home(n.ledger, log + [e], io)
  {
    var self, t := st.ledger.self, IO.Lookup(st.ledger.table, io);
    if t.Some? {
      HandledTitle(st, e, io, t.value);
      DeedKeepsHome(t.value, e, Master(st.cluster.nodes), self, log, io);
      hide Handled, IO.TitleReplay, EventDeeds;
    } else if e.id != self {
      IO.SweepLooksUp(st.ledger.table, self, if e.kind == NodeOnline then IO.Return(e.id) else IO.Take(e.id), io);
    }
    hide IO.Distinct, IO.Lookup, IO.Swept, LastKind, Master, IO.Commands, IO.Synced, IO.Announced, IsGateway;
  }

  lemma {:induction false} HandledAllHome(st: Station, events: seq<Event>, log: seq<Event>, io: u32)
    requires Home(st.ledger, log, io)
    ensures var n := HandledAll(st, events);
            n.cluster == st.cluster && n.ledger.self == st.ledger.self && Home(n.ledger, log + events, io)
  {
    hide Home, Handled;
    if events == [] {
      assert log + events == log;
    } else {
      var past, e := events[..|events| - 1], events[|events| - 1];
      HandledAllHome(st, past, log, io);
      HandledHome(HandledAll(st, past), e, log + past, io);
      assert (log + past) + [e] == log + events;
    }
  }

  /** An update about the I/O, if this is one, leaves it with its original owner. */
  predicate SendsHome(act: Act, io: u32) {
    act.Receive? && act.io == io ==> act.owner == act.original
  }

  lemma SteppedHome(st: Station, act: Act, io: u32)
    requires Home(st.ledger, st.cluster.events, io) && SendsHome(act, io)
    ensures Home(Stepped(st, act).ledger, Stepped(st, act).cluster.events, io)
  {
    var l := st.ledger;
    match act
    case Member(op) =>
      var c := ClusterManager.Apply(st.cluster, op);
      hide Home, HandledAll, ClusterManager.Apply;
      HandledAllHome(st.(cluster := c), c.events[|st.cluster.events|..], st.cluster.events, io);
      assert st.cluster.events + c.events[|st.cluster.events|..] == c.events;
    case Register(id) =>
      if id != 0 && IO.SlotFor(l.table, id) < |l.table| {
        IO.PutLooksUp(l.table, IO.Io(id, l.self, l.self, true), io);
      }
      hide IO.Lookup, IO.Distinct, LastKind, IO.SlotFor;
    case Receive(id, owner, original) =>
      IO.UpdateOutcome(l, id, owner, original, st.registry, io);
      hide IO.Lookup, IO.Distinct, LastKind, IO.Updated, IO.Operational;
    case Admit(_) =>
  }

  lemma {:induction false} LivedHome(st: Station, acts: seq<Act>, io: u32)
    requires Home(st.ledger, st.cluster.events, io) && forall i :: 0 <= i < |acts| ==> SendsHome(acts[i], io)
    ensures Home(Lived(st, acts).ledger, Lived(st, acts).cluster.events, io)
  {
    hide Home, Stepped;
    if acts != [] {
      var past := acts[..|acts| - 1];
      assert forall i :: 0 <= i < |past| ==> past[i] == acts[i];
      LivedHome(st, past, io);
      SteppedHome(Lived(st, past), acts[|past|], io);
    }
  }

  /**
   * Failback is complete: in every life from power-up of a node whose I/O all began with their original
   * owners, and to which no update gave an I/O away from its original owner, every I/O of a node now
   * listed as ONLINE is with that node.
   */
  lemma OnlineOwnersHaveTheirIo(st: Station, acts: seq<Act>, k: nat, io: u32)
    requires st.cluster == POWER_UP && IO.Distinct(st.ledger.table)
    requires var t := IO.Lookup(st.ledger.table, io); t.Some? ==> t.value.owner == t.value.original
    requires forall i :: 0 <= i < |acts| ==> SendsHome(acts[i], io)
    requires k < |Lived(st, acts).cluster.nodes|
    ensures var r := Lived(st, acts);
            var n, t := r.cluster.nodes[k], IO.Lookup(r.ledger.table, io);
            n.id != 0 && n.id != r.cluster.self && n.state == ONLINE && t.Some? && t.value.original == n.id ==>
              t.value.owner == n.id
  {
    LivedHome(st, acts, io);
    LifeOfCluster(st, acts);
    EventsTellStates(Memberships(acts));
    hide Lived, ClusterManager.Run, IO.Lookup, LastKind, IO.Distinct, ClusterManager.Distinct;
  }

  // ---------------------------------------------------------------------------
  // Several nodes
  // ---------------------------------------------------------------------------

  predicate SeesOnline(st: Station, id: u32) {
    exists k :: 0 <= k < |st.cluster.nodes| && st.cluster.nodes[k].id == id && st.cluster.nodes[k].state == ONLINE
  }

  predicate BelievesMaster(st: Station) {
    st.ledger.self == Master(st.cluster.nodes)
  }

  /** Started, with an id that the I/O table was given too. */
  predicate Ready(st: Station) {
    st.cluster.started && st.ledger.self == st.cluster.self
  }

  /** One node of the system acts. */
  datatype Move = Move(node: nat, act: Act)

  function SystemStep(sys: seq<Station>, m: Move): (r: seq<Station>)
    ensures |r| == |sys|
  {
    if m.node < |sys| then sys[m.node := Stepped(sys[m.node], m.act)] else sys
  }

  function SystemRun(sys: seq<Station>, moves: seq<Move>): (r: seq<Station>)
    ensures |r| == |sys|
  {
    if moves == [] then sys else SystemStep(SystemRun(sys, moves[..|moves| - 1]), moves[|moves| - 1])
  }

  /** What membership operations keep of every node. */
  ghost predicate Sane(st: Station) {
    ClusterManager.Inv(st.cluster) && IO.Distinct(st.ledger.table)
  }

  lemma {:induction false} HandlingKeepsSane(st: Station, events: seq<Event>)
    requires Sane(st)
    ensures Sane(HandledAll(st, events))
  {
    if events != [] {
      var past, e := events[..|events| - 1], events[|events| - 1];
      HandlingKeepsSane(st, past);
      var m := HandledAll(st, past);
      IO.SweepLooksUp(m.ledger.table, m.ledger.self,
                      if e.kind == NodeOnline then IO.Return(e.id) else IO.Take(e.id), 0);
      assert HandledAll(st, events) == Handled(m, e);
      hide HandledAll, IO.Lookup, IO.Distinct, IO.Swept, IO.Commands, ClusterManager.Inv, Master, IsGateway;
    }
  }

  lemma StepKeepsSane(st: Station, act: Act)
    requires Sane(st)
    ensures Sane(Stepped(st, act))
  {
    var l := st.ledger;
    match act
    case Member(op) =>
      ApplyInv(st.cluster, op);
      hide ClusterManager.Inv, ClusterManager.Apply, HandledAll, IO.Distinct;
      var c := ClusterManager.Apply(st.cluster, op);
      HandlingKeepsSane(st.(cluster := c), c.events[|st.cluster.events|..]);
    case Register(id) =>
      if id != 0 && IO.SlotFor(l.table, id) < |l.table| {
        IO.PutLooksUp(l.table, IO.Io(id, l.self, l.self, true), 0);
      }
      hide ClusterManager.Inv, IO.Distinct, IO.Lookup, IO.SlotFor;
    case Receive(io, owner, original) =>
      IO.UpdateOutcome(l, io, owner, original, st.registry, 0);
      hide ClusterManager.Inv, IO.Distinct, IO.Lookup, IO.Updated, IO.Operational;
    case Admit(_) =>
  }

  /** Every node is at power-up, with an I/O table that names no I/O twice. */
  ghost predicate Beginning(sys: seq<Station>) {
    forall i :: 0 <= i < |sys| ==> sys[i].cluster == POWER_UP && IO.Distinct(sys[i].ledger.table)
  }

  lemma {:induction false} SystemSane(sys: seq<Station>, moves: seq<Move>)
    requires Beginning(sys)
    ensures forall i :: 0 <= i < |sys| ==> Sane(SystemRun(sys, moves)[i])
  {
    if moves == [] {
      RunInv([]);
    } else {
      var past, m := moves[..|moves| - 1], moves[|moves| - 1];
      SystemSane(sys, past);
      hide Sane, Stepped, Beginning;
      if m.node < |sys| { StepKeepsSane(SystemRun(sys, past)[m.node], m.act); }
    }
  }

  /** What a node's belief that it is master amounts to. */
  lemma MasterBelief(st: Station)
    requires ClusterManager.Inv(st.cluster)
    ensures Ready(st) && st.cluster.self != 0 ==> SeesOnline(st, st.cluster.self)
    ensures Ready(st) ==>
              (BelievesMaster(st) <==> forall id: u32 :: id != 0 && SeesOnline(st, id) ==> 0 < st.cluster.self <= id)
    ensures st.ledger.self == 0 ==> (BelievesMaster(st) <==> forall id: u32 :: SeesOnline(st, id) ==> id == 0)
  {
    MasterIsLowest(st.cluster.nodes);
    var s := st.cluster.nodes;
    hide Master, Told, Named;
    var m := Master(s);
    if m != 0 {
      var k :| 0 <= k < |s| && Eligible(s[k]) && s[k].id == m;
      assert SeesOnline(st, m);
    }
    forall id: u32 | id != 0 && SeesOnline(st, id) ensures m != 0 && m <= id {
      var k :| 0 <= k < |s| && s[k].id == id && s[k].state == ONLINE;
      assert Eligible(s[k]);
    }
    if Ready(st) && st.cluster.self != 0 {
      var k :| 0 <= k < |s| && s[k].id == st.cluster.self;
      assert s[k].state == ONLINE;
    }
  }

  /** The handler makes the node the owner of another's I/O. */
  predicate TakesOver(st: Station, e: Event, io: u32) {
    var before, after := IO.Lookup(st.ledger.table, io), IO.Lookup(Handled(st, e).ledger.table, io);
    before.Some? && before.value.owner != st.ledger.self && after.Some? && after.value.owner == st.ledger.self
  }

  /** It does so exactly when, as master, it handles the failure of the I/O's owner. */
  lemma TakeoverIsTheMasters(st: Station, e: Event, io: u32)
    requires IO.Distinct(st.ledger.table)
    ensures TakesOver(st, e, io) <==>
              && BelievesMaster(st) && e.kind == NodeOffline && e.id != st.ledger.self
              && IO.Lookup(st.ledger.table, io).Some? && IO.Lookup(st.ledger.table, io).value.owner == e.id
  {
    var self := st.ledger.self;
    IO.SweepLooksUp(st.ledger.table, self, if e.kind == NodeOnline then IO.Return(e.id) else IO.Take(e.id), io);
    hide IO.Lookup, IO.Distinct, IO.Swept, Master, IO.Commands, IsGateway;
  }

  /**
   * In every reachable state of every system, of two nodes with distinct ids that see each other ONLINE
   * at most one believes itself master. Id 0 is no exception.
   */
  lemma AtMostOneMaster(sys: seq<Station>, moves: seq<Move>, i: nat, j: nat)
    requires Beginning(sys) && i < |sys| && j < |sys|
    ensures var a, b := SystemRun(sys, moves)[i], SystemRun(sys, moves)[j];
            && Ready(a) && Ready(b) && a.cluster.self != b.cluster.self
            && SeesOnline(a, b.cluster.self) && SeesOnline(b, a.cluster.self) ==>
              !(BelievesMaster(a) && BelievesMaster(b))
  {
    SystemSane(sys, moves);
    var a, b := SystemRun(sys, moves)[i], SystemRun(sys, moves)[j];
    assert Sane(a) && Sane(b);
    hide SystemRun, Sane, Ready, SeesOnline, BelievesMaster;
    if Ready(a) && Ready(b) && SeesOnline(a, b.cluster.self) && SeesOnline(b, a.cluster.self)
       && BelievesMaster(a) && BelievesMaster(b) {
      MastersShareId(a, b);
    }
  }

  /** Two nodes that see each other ONLINE and both believe themselves master have the same id. */
  lemma MastersShareId(a: Station, b: Station)
    requires Sane(a) && Sane(b) && Ready(a) && Ready(b) && BelievesMaster(a) && BelievesMaster(b)
    requires SeesOnline(a, b.cluster.self) && SeesOnline(b, a.cluster.self)
    ensures a.cluster.self == b.cluster.self
  {
    MasterBelief(a);
    MasterBelief(b);
    hide SeesOnline, BelievesMaster, ClusterManager.Inv, IO.Distinct;
  }

  /** Handling events moves an owner's I/O to this node only if it is master, and only upon that owner's failure. */
  lemma {:induction false} DeedsTake(self: u32, events: seq<Event>, master: u32, t: IO.Title, io: u32)
    requires t.owner != self
    ensures IO.TitleReplay(t, EventsDeeds(self, events, master), self, io).owner == t.owner ||
            (master == self && Event(t.owner, NodeOffline) in events)
  {
    if events != [] {
      var past, e := events[..|events| - 1], events[|events| - 1];
      DeedsTake(self, past, master, t, io);
      IO.ReplayAppends(t, EventsDeeds(self, past, master), EventDeeds(self, e, master), self, io);
      var before := IO.TitleReplay(t, EventsDeeds(self, past, master), self, io);
      OneDeed(before, IO.NodeOffline(e.id, master), self, io);
      OneDeed(before, IO.NodeOnline(e.id), self, io);
      assert IO.TitleReplay(before, [], self, io) == before;
      assert e in events && forall f :: f in past ==> f in events;
      hide IO.TitleReplay, EventsDeeds, IO.Operational;
    }
  }

  /** In this act, by the events it publishes, the node becomes the owner of another's I/O. */
  predicate TakesIn(st: Station, act: Act, io: u32) {
    var before, after := IO.Lookup(st.ledger.table, io), IO.Lookup(Stepped(st, act).ledger.table, io);
    act.Member? &&
    before.Some? && before.value.owner != st.ledger.self && after.Some? && after.value.owner == st.ledger.self
  }

  /** It then believes itself master once the act is done, and the act published the failure of that owner. */
  lemma TakingIsTheMasters(st: Station, act: Act, io: u32)
    requires IO.Distinct(st.ledger.table) && TakesIn(st, act, io)
    ensures BelievesMaster(Stepped(st, act))
    ensures var owner, n := IO.Lookup(st.ledger.table, io).value.owner, Stepped(st, act);
            |st.cluster.events| <= |n.cluster.events| &&
            Event(owner, NodeOffline) in n.cluster.events[|st.cluster.events|..]
  {
    var t := IO.Lookup(st.ledger.table, io).value;
    SteppedTitle(st, act, io, t);
    var c := ClusterManager.Apply(st.cluster, act.op);
    hide HandledAll, Stepped, IO.Lookup, IO.Distinct, EventsDeeds, ClusterManager.Apply, Master, IO.TitleReplay;
    DeedsTake(st.ledger.self, c.events[|st.cluster.events|..], Master(c.nodes), t, io);
  }

  /** The node that makes move `p` of a run, just before it and just after it. */
  function MoverBefore(sys: seq<Station>, moves: seq<Move>, p: nat): Station
    requires p < |moves| && moves[p].node < |sys|
  {
    SystemRun(sys, moves[..p])[moves[p].node]
  }

  function MoverAfter(sys: seq<Station>, moves: seq<Move>, p: nat): Station
    requires p < |moves| && moves[p].node < |sys|
  {
    SystemRun(sys, moves[..p + 1])[moves[p].node]
  }

  /** In move `p` of the run, its node takes over the I/O. */
  predicate TakeoverAt(sys: seq<Station>, moves: seq<Move>, p: nat, io: u32) {
    p < |moves| && moves[p].node < |sys| && TakesIn(MoverBefore(sys, moves, p), moves[p].act, io)
  }

  lemma TakeoverAtIsTheMasters(sys: seq<Station>, moves: seq<Move>, p: nat, io: u32)
    requires Beginning(sys) && TakeoverAt(sys, moves, p, io)
    ensures Sane(MoverAfter(sys, moves, p)) && BelievesMaster(MoverAfter(sys, moves, p))
  {
    SystemSane(sys, moves[..p]);
    SystemSane(sys, moves[..p + 1]);
    assert moves[..p + 1][..p] == moves[..p];
    var st := MoverBefore(sys, moves, p);
    assert MoverAfter(sys, moves, p) == Stepped(st, moves[p].act) by { hide Stepped; }
    assert Sane(st) && Sane(MoverAfter(sys, moves, p));
    hide SystemRun, Stepped, BelievesMaster, TakesIn, MoverBefore, MoverAfter, ClusterManager.Inv;
    TakingIsTheMasters(st, moves[p].act, io);
  }

  /**
   * At most one node takes over. In every run of every system, of any I/O and at any two moves: if the
   * node that took over in the one and the node that took over in the other, each as its move left it,
   * saw each other ONLINE, then they have one id. So no two nodes with distinct ids that see each other
   * ever both take over I/O.
   */
  lemma AtMostOneTakesOver(sys: seq<Station>, moves: seq<Move>, p: nat, q: nat, io: u32, otherIo: u32)
    requires Beginning(sys) && TakeoverAt(sys, moves, p, io) && TakeoverAt(sys, moves, q, otherIo)
    ensures var a, b := MoverAfter(sys, moves, p), MoverAfter(sys, moves, q);
            && BelievesMaster(a) && BelievesMaster(b)
            && (Ready(a) && Ready(b) && SeesOnline(a, b.cluster.self) && SeesOnline(b, a.cluster.self) ==>
                  a.cluster.self == b.cluster.self)
  {
    var a, b := MoverAfter(sys, moves, p), MoverAfter(sys, moves, q);
    TakeoverAtIsTheMasters(sys, moves, p, io);
    TakeoverAtIsTheMasters(sys, moves, q, otherIo);
    hide MoverAfter, BelievesMaster, Ready, SeesOnline, Sane, TakeoverAt;
    if Ready(a) && Ready(b) && SeesOnline(a, b.cluster.self) && SeesOnline(b, a.cluster.self) { MastersShareId(a, b); }
  }

  /**
   * Distinct ids are needed: two nodes started with one id, be it 0 or not, see each other's id ONLINE
   * and both believe themselves master.
   */
  lemma SharedIdMakesTwoMasters(a: Station, b: Station, id: u32, now: u32, later: u32)
    requires a.cluster == Started(POWER_UP, id, now) && a.ledger.self == id
    requires b.cluster == Started(POWER_UP, id, later) && b.ledger.self == id
    ensures Ready(a) && Ready(b) && SeesOnline(a, b.cluster.self) && SeesOnline(b, a.cluster.self)
    ensures BelievesMaster(a) && BelievesMaster(b)
  {
    AloneAndMaster(a, id, now);
    AloneAndMaster(b, id, later);
  }

  /** A node just started believes itself master, whatever its id. */
  lemma AloneAndMaster(st: Station, id: u32, now: u32)
    requires st.cluster == Started(POWER_UP, id, now) && st.ledger.self == id
    ensures Ready(st) && SeesOnline(st, id) && BelievesMaster(st)
  {
    var s := st.cluster.nodes;
    MasterIsLowest(s);
    assert s[0].id == id && s[0].state == ONLINE;
    assert forall k :: 1 <= k < |s| ==> s[k] == FREE;
    hide Master;
  }

  /** Where all see all and nobody else, the lowest nonzero id is master and no other node is, unless all have id 0. */
  lemma AgreementMakesOneMaster(group: seq<Station>, i: nat)
    requires i < |group|
    requires forall n :: 0 <= n < |group| ==> ClusterManager.Inv(group[n].cluster) && Ready(group[n])
    requires forall n :: 0 <= n < |group| ==> SeesOnline(group[i], group[n].cluster.self)
    requires forall id: u32 :: id != 0 && SeesOnline(group[i], id) ==>
               exists n :: 0 <= n < |group| && group[n].cluster.self == id
    ensures BelievesMaster(group[i]) <==>
              forall n :: 0 <= n < |group| && group[n].cluster.self != 0 ==>
                0 < group[i].cluster.self <= group[n].cluster.self
  {
    MasterBelief(group[i]);
    hide BelievesMaster, SeesOnline, ClusterManager.Inv;
  }

  // ---------------------------------------------------------------------------
  // The handler in place
  // ---------------------------------------------------------------------------

  lemma HandledNext(st: Station, events: seq<Event>, i: nat)
    requires i < |events|
    ensures HandledAll(st, events[..i + 1]) == Handled(HandledAll(st, events[..i]), events[i])
  {
    assert events[..i + 1][..i] == events[..i];
    hide Handled;
  }

  class Failover {
    const manager: Manager
    const io: IO.Table
    const failsafe: FailSafe.FailSafeTable
    const registry: NodeRegistry.Table

    ghost predicate Valid()
      reads manager, manager.nodes, io, io.entries, registry, registry.entries,
            failsafe, failsafe.entries, failsafe.table, failsafe.table.values, failsafe.table.dirty,
            failsafe.table.bus, failsafe.table.bus.queue
    {
      manager.Valid() && io.Valid() && registry.Valid() && failsafe.Valid()
    }

    ghost function View(): Station
      requires Valid()
      reads manager, manager.nodes, io, io.entries, registry, registry.entries,
            failsafe, failsafe.entries, failsafe.table, failsafe.table.values, failsafe.table.dirty,
            failsafe.table.bus, failsafe.table.bus.queue
    {
      Station(manager.View(), io.View(), failsafe.View(), registry.entries[..])
    }

    /** `cluster_failover_init`: the I/O table starts empty. */
    constructor (self: u32, manager: Manager, failsafe: FailSafe.FailSafeTable, registry: NodeRegistry.Table)
      requires manager.Valid() && failsafe.Valid() && registry.Valid()
      ensures Valid() && this.manager == manager && this.failsafe == failsafe && this.registry == registry
      ensures fresh(io) && fresh(io.entries) && View().ledger == IO.Ledger(self, seq(IO.MAX_IO, _ => IO.FREE), [])
    {
      this.manager, this.failsafe, this.registry := manager, failsafe, registry;
      io := new IO.Table(self);
    }

    method IsRegisteredGateway(id: u32) returns (found: bool)
      requires Valid()
      ensures found <==> IsGateway(registry.entries[..], id)
    {
      found := false;
      var k := 0;
      while k < NodeRegistry.MAX_NODES && !found
        invariant k <= NodeRegistry.MAX_NODES
        invariant found <==> IsGateway(registry.entries[..k], id)
      {
        var e := registry.entries[k];
        found := e.id != 0 && e.id == id && e.profile == GATEWAY;
        k := k + 1;
        assert registry.entries[..k] == registry.entries[..k - 1] + [e];
      }
      assert !found ==> registry.entries[..k] == registry.entries[..];
    }
  
    method ApplyLocalFailsafeIfGatewayLost(id: u32, reason: u8)
      requires Valid() && FailSafe.ValidReason(reason)
      modifies failsafe.entries, failsafe.table.values, failsafe.table.dirty,
               failsafe.table.bus, failsafe.table.bus.queue
      ensures Valid() && View() == Guarded(old(View()), id, reason)
    {
      hide FailSafe.Plant.SecureUpto, IsGateway;
      if id == io.self {
        return;
      }
      var gateway := IsRegisteredGateway(id);
      if !gateway {
        return;
      }
      var _ := failsafe.ApplyForReasonAll(reason);
    }

    method HandleEvent(e: Event)
      requires Valid()
      modifies io`sent, io.entries, failsafe.entries, failsafe.table.values, failsafe.table.dirty,
               failsafe.table.bus, failsafe.table.bus.queue
      ensures Valid() && View() == Handled(old(View()), e)
    {
      hide FailSafe.Plant.SecureUpto, IsGateway, Master, IO.Commands, IO.Online, IO.Offline;
      match e.kind
      case NodeOffline =>
        if e.id == io.self {
          return;
        }
        ApplyLocalFailsafeIfGatewayLost(e.id, FailSafe.NODE_OFFLINE);
        var master := manager.GetMaster();
        io.HandleNodeOffline(e.id, master);
      case NodeOnline =>
        if e.id == io.self {
          return;
        }
        io.HandleNodeOnline(e.id);
        io.SyncStateToNode(e.id, failsafe.table);
      case NodeSuspect =>
        ApplyLocalFailsafeIfGatewayLost(e.id, FailSafe.COMM_LOSS);
      case NodeDiscovered =>
    }
  
    /** Hands the handler each event published since `start`, in order. */
    method Deliver(start: nat)
      requires Valid() && start <= |manager.published|
      modifies io`sent, io.entries, failsafe.entries, failsafe.table.values, failsafe.table.dirty,
               failsafe.table.bus, failsafe.table.bus.queue
      ensures Valid() && View() == HandledAll(old(View()), manager.published[start..])
    {
      ghost var before, events := View(), manager.published[start..];
      hide Valid, View, Handled;
      assert HandledAll(before, events[..0]) == before;
      var i := start;
      while i < |manager.published|
        invariant start <= i <= |manager.published| && Valid() && events == manager.published[start..]
        invariant View() == HandledAll(before, events[..i - start])
      {
        HandledNext(before, events, i - start);
        HandleEvent(manager.published[i]);
        i := i + 1;
      }
      assert events[..i - start] == events;
    }

    method Process(now: u32)
      requires Valid()
      modifies manager`lastRun, manager`published, manager.nodes, manager.pending,
               io`sent, io.entries, failsafe.entries, failsafe.table.values, failsafe.table.dirty,
               failsafe.table.bus, failsafe.table.bus.queue
      ensures Valid() && View() == Stepped(old(View()), Member(Op.Process(now)))
    {
      hide HandledAll, AgedAll, Notices;
      var start := |manager.published|;
      manager.Process(now);
      Deliver(start);
    }

    method UpdateNode(id: u32, now: u32)
      requires Valid()
      modifies manager`published, manager.nodes,
               io`sent, io.entries, failsafe.entries, failsafe.table.values, failsafe.table.dirty,
               failsafe.table.bus, failsafe.table.bus.queue
      ensures Valid() && View() == Stepped(old(View()), Member(Heartbeat(id, now)))
    {
      hide HandledAll, SlotFor, Occupant, Greetings;
      var start := |manager.published|;
      manager.UpdateNode(id, now);
      Deliver(start);
    }
  }
}
