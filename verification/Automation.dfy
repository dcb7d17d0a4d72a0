/** The automation engine as a transition system: every entry point as a function on the whole state. */
module Automation {
  import opened Words
  import opened EventBus
  import opened StateStore
  import opened FailSafe
  import opened AutomationRules
  import opened RuleTimers

  const REMOTE_QUEUE: nat := 16
  const MAGIC: u32 := 0x4155_544F
  const VERSION: u16 := 4

  datatype Outcome = Unattempted | AppliedLocal | DispatchedRemote | DispatchFailed
                   | RemoteOwnerOffline | TargetUnresolved | BlockedFailSafe

  datatype Diag = Diag(lastTrigger: u32, lastEval: u32, lastAction: u32, condition: bool,
                       value: bool, outcome: Outcome, local: bool, owner: u32, original: u32)

  const NO_DIAG: Diag := Diag(0, 0, 0, false, false, Unattempted, false, 0, 0)

  /** An output command sent to the node that owns the output. */
  datatype RemoteCommand = RemoteCommand(target: u32, requester: u32, output: u16, value: i32)

  /** What the rest of the firmware answers during one call: clock, cluster tables, registry, scaling. */
  datatype Env = Env(now: u32, selfNode: u32, owner: u16 -> u32, original: u16 -> u32, local: u16 -> bool,
                     offline: u32 -> bool, known: u32 -> bool, scaled: (u16, i32) -> i32)

  /** The blob kept in flash. */
  datatype Blob = Blob(magic: u32, version: u16, count: u16, nodes: seq<Rule>, locks: seq<Interlock>, crc: u32)

  /** The checksum is some function of the blob's other fields. */
  type Checksum = (u32, u16, u16, seq<Rule>, seq<Interlock>) -> u32

  function Pad<T>(s: seq<T>, filler: T): (r: seq<T>) {
    if |s| >= MAX_RULES then s else s + seq(MAX_RULES - |s|, _ => filler)
  }

  function MakeBlob(sum: Checksum, rules: seq<Rule>, locks: seq<Interlock>): Blob
    requires |rules| <= MAX_RULES
  {
    var nodes, ilks := Pad(rules, NO_RULE), Pad(locks, NO_INTERLOCK);
    Blob(MAGIC, VERSION, |rules|, nodes, ilks, sum(MAGIC, VERSION, |rules|, nodes, ilks))
  }

  /** The header checks of the loader. */
  predicate Intact(sum: Checksum, b: Blob) {
    && b.magic == MAGIC && b.version == VERSION
    && b.count as nat <= MAX_RULES && |b.nodes| == |b.locks| == MAX_RULES
    && b.crc == sum(b.magic, b.version, b.count, b.nodes, b.locks)
  }

  /** Whether the loader takes the blob. */
  predicate Loadable(p: Profile, sum: Checksum, b: Blob) {
    Intact(sum, b) && AllValid(p, b.nodes[..b.count]) && ConflictFree(b.nodes[..b.count])
  }

  predicate LocksWellFormed(locks: seq<Interlock>) {
    forall i :: 0 <= i < |locks| ==> locks[i].WellFormed()
  }

  /** What no event or timer changes: the profile, the rule table and, within one call, the clock. */
  datatype Config = Config(profile: Profile, rules: seq<Rule>, locks: seq<Interlock>, tick: u32, hasQueue: bool)
  {
    predicate Valid() {
      |rules| == |locks| <= MAX_RULES && LocksWellFormed(locks)
    }
  }

  /**
   * What events and timers change. `hist[i]` records what rule `i` has observed and done since it was
   * installed; no step reads it.
   */
  datatype Live = Live(rts: seq<Runtime>, diags: seq<Diag>, hist: seq<Log>, plant: Plant, remote: seq<RemoteCommand>)
  {
    predicate Fits(c: Config) {
      |rts| == |diags| == |hist| == |c.rules|
    }
  }

  /** The engine's state: rule `i` owns entry `i` of the rules, locks, runtimes, diagnostics and histories. */
  datatype World = World(config: Config, live: Live, flash: Blob, persisted: bool)
  {
    predicate Shaped() {
      config.Valid() && live.Fits(config)
    }
  }

  // ---------------------------------------------------------------------------
  // Conditions and interlocks
  // ---------------------------------------------------------------------------

  /** `automation_eval_condition`: an id out of range is false, an unknown operator means equality. */
  function EvalCondition(values: seq<i32>, c: Condition): bool {
    if c.channel >= |values| then false
    else if c.op < OP_MAX then EvalOp(c.op, values[c.channel], c.target)
    else values[c.channel] == c.target
  }

  function Permitted(values: seq<i32>, k: Interlock): bool
    requires k.WellFormed()
  {
    if !k.Active() then true
    else if k.condCount == 1 then EvalCondition(values, k.conditions[0])
    else if k.logicOp == 1 then EvalCondition(values, k.conditions[0]) || EvalCondition(values, k.conditions[1])
    else EvalCondition(values, k.conditions[0]) && EvalCondition(values, k.conditions[1])
  }

  predicate Watches(k: Interlock, channel: u16)
    requires k.WellFormed()
  {
    exists c :: 0 <= c < k.condCount && k.conditions[c].channel == channel
  }

  // ---------------------------------------------------------------------------
  // Dispatching to an output
  // ---------------------------------------------------------------------------

  function MarkAction(d: Diag, env: Env, output: u16, value: i32, outcome: Outcome, local: bool): Diag {
    d.(lastAction := env.now, value := value != 0, outcome := outcome, local := local,
       owner := env.owner(output), original := env.original(output))
  }

  function DispatchOutcome(c: Config, l: Live, env: Env, output: u16): Outcome {
    if env.local(output) then
      if l.plant.Allows(output) then AppliedLocal else BlockedFailSafe
    else if env.selfNode == 0 || env.owner(output) == 0 then TargetUnresolved
    else if env.offline(env.owner(output)) then RemoteOwnerOffline
    else if !c.hasQueue || |l.remote| >= REMOTE_QUEUE then DispatchFailed
    else DispatchedRemote
  }

  /** `automation_dispatch_output` on behalf of rule `i`. */
  function Dispatch(c: Config, l: Live, env: Env, output: u16, value: i32, i: nat): Live
    requires i < |l.diags|
  {
    var outcome := DispatchOutcome(c, l, env, output);
    var shown := if outcome == AppliedLocal then Binary(value) else value;
    var l1 := l.(diags := l.diags[i := MarkAction(l.diags[i], env, output, shown, outcome, env.local(output))]);
    if outcome == AppliedLocal then
      l1.(plant := l.plant.Command(output, value))
    else if outcome == DispatchedRemote then
      l1.(remote := l.remote + [RemoteCommand(env.owner(output), env.selfNode, output, value)])
    else l1
  }

  /** The value an action drives its rule's output to. */
  function ActionValue(plant: Plant, r: Rule, a: Action): i32 {
    match a
    case Branch(truth) => if truth then r.onTrue else r.onFalse
    case Toggle => if plant.store.Read(r.output) != 0 then 0 else 1
    case Force(on) => if on then 1 else 0
    case Nothing => 0
  }

  /** The action is recorded for rule `i`. */
  function Done(l: Live, i: nat, a: Action): Live
    requires i < |l.hist|
  {
    l.(hist := l.hist[i := l.hist[i].(done := l.hist[i].done + [Doing(|l.hist[i].seen|, a)])])
  }

  function Perform(c: Config, l: Live, env: Env, i: nat, a: Action): (r: Live)
    requires l.Fits(c) && i < |c.rules|
    ensures r.Fits(c) && r.rts == l.rts && r.hist == (if a == Nothing then l else Done(l, i, a)).hist
  {
    if a == Nothing then l
    else Dispatch(c, Done(l, i, a), env, c.rules[i].output, ActionValue(l.plant, c.rules[i], a), i)
  }

  function Observe(l: Live, i: nat, rt: Runtime, o: Obs): Live
    requires i < |l.rts| == |l.hist|
  {
    l.(rts := l.rts[i := rt], hist := l.hist[i := l.hist[i].(seen := l.hist[i].seen + [o])])
  }

  // ---------------------------------------------------------------------------
  // State-change events
  // ---------------------------------------------------------------------------

  /** What rule `i` observes of an event about its input. */
  function Evaluated(c: Config, l: Live, env: Env, ev: Event, i: nat): Obs
    requires c.Valid() && i < |c.rules|
  {
    Eval(EvalOp(c.rules[i].op, env.scaled(ev.source, ev.data), c.rules[i].threshold),
         Permitted(l.plant.store.values, c.locks[i]))
  }

  /** First half of the handler for rule `i`: evaluate it if the event is about its input. */
  function Trigger(c: Config, l: Live, env: Env, ev: Event, i: nat): (v: Live)
    requires c.Valid() && l.Fits(c) && i < |c.rules|
    ensures v.Fits(c)
  {
    var r := c.rules[i];
    if r.input != ev.source then l
    else
      var o := Evaluated(c, l, env, ev, i);
      var d := l.diags[i].(lastTrigger := env.now, lastEval := env.now, condition := o.cond);
      var l1 := Observe(l, i, EvalRuntime(r, l.rts[i], c.tick, o.cond, o.permitted), o);
      if o.cond && !o.permitted then
        l1.(diags := l.diags[i := MarkAction(d, env, r.output, r.onTrue, BlockedFailSafe, env.local(r.output))])
      else
        Perform(c, l1.(diags := l.diags[i := d]), env, i, EvalAction(r, l.rts[i], o.cond, o.permitted))
  }

  /** Second half: the output is on, the event is about its interlock, and the permission is gone. */
  predicate Trips(c: Config, l: Live, ev: Event, i: nat)
    requires c.Valid() && i < |c.rules|
  {
    && c.locks[i].Active() && Watches(c.locks[i], ev.source)
    && l.plant.store.Read(c.rules[i].output) != 0
    && !Permitted(l.plant.store.values, c.locks[i])
  }

  function GuardRule(c: Config, l: Live, env: Env, ev: Event, i: nat): (v: Live)
    requires c.Valid() && l.Fits(c) && i < |c.rules|
    ensures v.Fits(c)
  {
    if Trips(c, l, ev, i) then
      Perform(c, Observe(l, i, TripRuntime(l.rts[i]), Trip), env, i, Branch(false))
    else l
  }

  function TriggerUpto(c: Config, l: Live, env: Env, ev: Event, k: nat): (v: Live)
    requires c.Valid() && l.Fits(c) && k <= |c.rules|
    ensures v.Fits(c)
  {
    if k == 0 then l else Trigger(c, TriggerUpto(c, l, env, ev, k - 1), env, ev, k - 1)
  }

  function GuardUpto(c: Config, l: Live, env: Env, ev: Event, k: nat): (v: Live)
    requires c.Valid() && l.Fits(c) && k <= |c.rules|
    ensures v.Fits(c)
  {
    if k == 0 then l else GuardRule(c, GuardUpto(c, l, env, ev, k - 1), env, ev, k - 1)
  }

  function HandleEvent(c: Config, l: Live, env: Env, ev: Event): (v: Live)
    requires c.Valid() && l.Fits(c)
    ensures v.Fits(c)
  {
    if ev.kind != STATE_CHANGE then l
    else GuardUpto(c, TriggerUpto(c, l, env, ev, |c.rules|), env, ev, |c.rules|)
  }

  /** The plant with the oldest pending event taken from the bus. */
  function TakeEvent(p: Plant): Plant
    requires p.store.bus.pending != []
  {
    p.(store := p.store.(bus := p.store.bus.Take()))
  }

  /** `event_bus_dispatch_budgeted`: deliver at most `budget` events, oldest first. */
  function DispatchEvents(c: Config, l: Live, env: Env, budget: nat): (v: Live)
    requires c.Valid() && l.Fits(c)
    ensures v.Fits(c)
    decreases budget
  {
    if budget == 0 || l.plant.store.bus.pending == [] then l
    else
      var l1 := l.(plant := TakeEvent(l.plant));
      DispatchEvents(c, HandleEvent(c, l1, env, l.plant.store.bus.pending[0]), env, budget - 1)
  }

  // ---------------------------------------------------------------------------
  // The millisecond tick
  // ---------------------------------------------------------------------------

  /** Rule `i` at a tick; the clock has already advanced. */
  function TickRule(c: Config, l: Live, env: Env, i: nat): (v: Live)
    requires l.Fits(c) && i < |c.rules|
    ensures v.Fits(c)
  {
    Perform(c, Observe(l, i, TickRuntime(c.rules[i], l.rts[i], c.tick), Tick), env, i,
            TickAction(c.rules[i], l.rts[i], c.tick))
  }

  function TickUpto(c: Config, l: Live, env: Env, k: nat): (v: Live)
    requires l.Fits(c) && k <= |c.rules|
    ensures v.Fits(c)
  {
    if k == 0 then l else TickRule(c, TickUpto(c, l, env, k - 1), env, k - 1)
  }

  function TickAll(w: World, env: Env): (v: World)
    requires w.Shaped()
    ensures v.Shaped()
  {
    var c := w.config.(tick := Add32(w.config.tick, 1));
    w.(config := c, live := TickUpto(c, w.live, env, |c.rules|))
  }

  // ---------------------------------------------------------------------------
  // Remote commands
  // ---------------------------------------------------------------------------

  /** A command is obeyed if it is addressed to this node, from a known requester, for an output of the profile. */
  predicate Obeyed(p: Profile, env: Env, cmd: RemoteCommand) {
    && env.selfNode != 0 && cmd.target == env.selfNode
    && (cmd.requester != 0 && cmd.requester != env.selfNode ==> env.known(cmd.requester))
    && cmd.output in p.outputs
  }

  function Receive(p: Profile, plant: Plant, env: Env, cmd: RemoteCommand): Plant {
    if Obeyed(p, env, cmd) then plant.Command(cmd.output, cmd.value) else plant
  }

  // ---------------------------------------------------------------------------
  // Editing the rule table
  // ---------------------------------------------------------------------------

  /** `automation_persist`; when the write fails the flash keeps what it held. */
  function Persist(w: World, sum: Checksum, saved: bool): World
    requires |w.config.rules| <= MAX_RULES
  {
    if saved then w.(flash := MakeBlob(sum, w.config.rules, w.config.locks), persisted := true) else w
  }

  /** The arguments of `automation_engine_add_rule`, before narrowing. */
  datatype Request = Request(input: int, op: u8, mode: u8, threshold: i32, duration: u16,
                             output: int, onTrue: int, onFalse: int)
  {
    /** The stored rule; ids are narrowed to 16 bits. */
    function Candidate(): Rule
      requires onTrue in {0, 1} && onFalse in {0, 1}
    {
      Rule(input % 0x1_0000, output % 0x1_0000, threshold, op, mode, duration, onTrue, onFalse)
    }
  }

  function Verdict(c: Config, q: Request): AddResult {
    if q.onTrue !in {0, 1} || q.onFalse !in {0, 1} then Invalid
    else AddVerdict(c.profile, c.rules, q.Candidate())
  }

  /** The world with a fresh rule at the end of every array. */
  function Install(w: World, r: Rule): World {
    var c, l := w.config, w.live;
    w.(config := c.(rules := c.rules + [r], locks := c.locks + [NO_INTERLOCK]),
       live := l.(rts := l.rts + [IDLE], diags := l.diags + [NO_DIAG], hist := l.hist + [NO_LOG]))
  }

  /** A new rule is evaluated at once, as if its input had just changed. */
  function AddRule(w: World, env: Env, sum: Checksum, saved: bool, q: Request): (v: World)
    requires w.Shaped()
    ensures v.Shaped()
  {
    if Verdict(w.config, q) != Ok then w
    else
      var r := q.Candidate();
      var w1 := Persist(Install(w, r), sum, saved);
      if r.input < |w.live.plant.store.values|
      then w1.(live := HandleEvent(w1.config, w1.live, env,
        Event(STATE_CHANGE, r.input, w.live.plant.store.values[r.input])))
      else w1
  }

  function Without<T>(s: seq<T>, k: nat): (r: seq<T>)
    requires k < |s|
  {
    s[..k] + s[k + 1..]
  }

  /** The world with entry `k` of every array removed and the later entries moved down together. */
  function Uninstall(w: World, k: nat): World
    requires w.Shaped() && k < |w.config.rules|
  {
    var c, l := w.config, w.live;
    w.(config := c.(rules := Without(c.rules, k), locks := Without(c.locks, k)),
       live := l.(rts := Without(l.rts, k), diags := Without(l.diags, k), hist := Without(l.hist, k)))
  }

  function RemoveRule(w: World, sum: Checksum, saved: bool, index: int): (v: World)
    requires w.Shaped()
    ensures v.Shaped()
  {
    if index < 0 || index >= |w.config.rules| then w else Persist(Uninstall(w, index), sum, saved)
  }

  function SetInterlock(w: World, sum: Checksum, saved: bool, index: int, k: Interlock): (v: World)
    requires w.Shaped() && k.WellFormed()
    ensures v.Shaped()
  {
    if index < 0 || index >= |w.config.rules| then w
    else Persist(w.(config := w.config.(locks := w.config.locks[index := k])), sum, saved)
  }

  function ClearRules(w: World, sum: Checksum, saved: bool): (v: World)
    ensures v.Shaped()
  {
    Persist(w.(config := w.config.(rules := [], locks := []), live := w.live.(rts := [], diags := [], hist := [])),
      sum, saved)
  }

  // ---------------------------------------------------------------------------
  // Boot
  // ---------------------------------------------------------------------------

  /** `automation_engine_init` over the given plant and flash. */
  function Boot(p: Profile, sum: Checksum, plant: Plant, hasQueue: bool, flash: Blob): World {
    var ok := Loadable(p, sum, flash);
    var n := if ok then flash.count as nat else 0;
    var rules := if ok then flash.nodes[..n] else [];
    var locks := if ok then flash.locks[..n] else [];
    World(Config(p, rules, locks, 0, hasQueue),
          Live(seq(n, _ => IDLE), seq(n, _ => NO_DIAG), seq(n, _ => NO_LOG), plant, []), flash, ok)
  }

  /** The loader takes every table the engine persisted, and restores rules and interlocks unchanged. */
  lemma PersistedTableLoads(p: Profile, sum: Checksum, rules: seq<Rule>, locks: seq<Interlock>, plant: Plant, q: bool)
    requires Disciplined(p, rules) && |locks| == |rules|
    ensures Loadable(p, sum, MakeBlob(sum, rules, locks))
    ensures var w := Boot(p, sum, plant, q, MakeBlob(sum, rules, locks));
            w.config.rules == rules && w.config.locks == locks && w.persisted
  {
    var b := MakeBlob(sum, rules, locks);
    assert b.nodes[..b.count] == rules && b.locks[..b.count] == locks;
  }
}
