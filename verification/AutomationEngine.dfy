/** The automation engine itself: four parallel arrays, a clock, and the loops over them. */
module AutomationEngine {
  import opened Words
  import opened EventBus
  import opened StateStore
  import opened FailSafe
  import opened AutomationRules
  import opened RuleTimers
  import opened Automation

  class Engine {
    const profile: Profile
    const sum: Checksum
    const hasQueue: bool
    const guards: FailSafeTable
    const rules: array<Rule>
    const locks: array<Interlock>
    const rts: array<Runtime>
    const diags: array<Diag>
    var count: nat
    var tick: u32
    var remote: seq<RemoteCommand>
    var flash: Blob
    var persisted: bool
    ghost var hist: seq<Log>

    /** Everything a call may change. */
    ghost function Frame(): set<object> {
      {this, rules, locks, rts, diags} + PlantFrame()
    }

    ghost function PlantFrame(): (objects: set<object>)
      ensures this !in objects && rules !in objects && locks !in objects && rts !in objects && diags !in objects
    {
      {guards, guards.entries, guards.table, guards.table.values, guards.table.dirty, guards.table.bus,
        guards.table.bus.queue}
    }

    ghost predicate Valid()
      reads Frame()
    {
      && rules.Length == locks.Length == rts.Length == diags.Length == MAX_RULES
      && count <= MAX_RULES && |hist| == count
      && guards.Valid()
      && LocksWellFormed(locks[..count])
    }

    ghost function ConfigView(): (c: Config)
      reads Frame()
      requires Valid()
      ensures c.Valid() && |c.rules| == count && c.profile == profile && c.tick == tick
    {
      Config(profile, rules[..count], locks[..count], tick, hasQueue)
    }

    ghost function LiveView(): (l: Live)
      reads Frame()
      requires Valid()
      ensures l.Fits(ConfigView())
    {
      Live(rts[..count], diags[..count], hist, guards.View(), remote)
    }

    /** The engine's state as the transition system sees it. */
    ghost function View(): World
      reads Frame()
      requires Valid()
    {
      World(ConfigView(), LiveView(), flash, persisted)
    }

    /** `automation_engine_init`: clear everything and load the table from flash. */
    constructor (profile: Profile, sum: Checksum, guards: FailSafeTable, hasQueue: bool, flash: Blob)
      requires guards.Valid() && forall k :: k in flash.locks ==> k.WellFormed()
      ensures Valid() && fresh(Frame() - PlantFrame())
      ensures this.guards == guards && this.sum == sum && guards.View() == old(guards.View())
      ensures View() == Boot(profile, sum, guards.View(), hasQueue, flash)
    {
      this.profile, this.sum, this.hasQueue, this.guards, this.flash := profile, sum, hasQueue, guards, flash;
      rules := new Rule[MAX_RULES](_ => NO_RULE);
      locks := new Interlock[MAX_RULES](_ => NO_INTERLOCK);
      rts := new Runtime[MAX_RULES](_ => IDLE);
      diags := new Diag[MAX_RULES](_ => NO_DIAG);
      count, tick, remote, persisted, hist := 0, 0, [], false, [];
      new;
      Load();
      assert rts[..count] == seq(count, _ => IDLE);
      assert diags[..count] == seq(count, _ => NO_DIAG);
      assert hist == seq(count, _ => NO_LOG);
    }

    /** The loader's verdict on a blob: the header, then every rule and every pair of rules. */
    static method CheckBlob(profile: Profile, sum: Checksum, b: Blob) returns (ok: bool)
      ensures ok == Loadable(profile, sum, b)
    {
      if b.magic != MAGIC || b.version != VERSION || b.count as nat > MAX_RULES ||
         |b.nodes| != MAX_RULES || |b.locks| != MAX_RULES ||
         b.crc != sum(b.magic, b.version, b.count, b.nodes, b.locks) {
        return false;
      }
      var nodes := b.nodes[..b.count];
      var i := 0;
      while i < |nodes|
        invariant 0 <= i <= |nodes|
        invariant AllValid(profile, nodes[..i]) && ConflictFree(nodes[..i])
      {
        hide RuleValid, Conflicts, AllValid, ConflictFree;
        if !RuleValid(profile, nodes[i]) {
          assert !AllValid(profile, nodes);
          return false;
        }
        var clash := ConflictsWithEarlier(nodes, i);
        if clash {
          return false;
        }
        TableGrows(profile, nodes, i);
        i := i + 1;
      }
      assert nodes[..i] == nodes;
      ok := true;
    }

    static method ConflictsWithEarlier(nodes: seq<Rule>, i: nat) returns (clash: bool)
      requires i < |nodes|
      ensures clash <==> exists j :: 0 <= j < i && Conflicts(nodes[j], nodes[i])
    {
      hide Conflicts;
      var j := 0;
      while j < i
        invariant 0 <= j <= i
        invariant forall m :: 0 <= m < j ==> !Conflicts(nodes[m], nodes[i])
      {
        if Conflicts(nodes[j], nodes[i]) {
          return true;
        }
        j := j + 1;
      }
      clash := false;
    }

    /** `automation_load` for a current blob: take the table whole, or leave the engine empty. */
    method Load()
      requires Valid() && count == 0 && !persisted
      requires forall k :: k in flash.locks ==> k.WellFormed()
      modifies this, rules, locks
      ensures Valid() && unchanged(this`flash, this`tick, this`remote)
      ensures persisted == Loadable(profile, sum, flash)
      ensures count == if persisted then flash.count as nat else 0
      ensures persisted ==> rules[..count] == flash.nodes[..count] && locks[..count] == flash.locks[..count]
      ensures hist == seq(count, _ => NO_LOG)
    {
      var b := flash;
      var ok := CheckBlob(profile, sum, b);
      if !ok {
        return;
      }
      forall k | 0 <= k < b.count as nat { rules[k] := b.nodes[k]; }
      forall k | 0 <= k < b.count as nat { locks[k] := b.locks[k]; }
      count := b.count as nat;
      persisted := true;
      hist := seq(count, _ => NO_LOG);
    }

    // -------------------------------------------------------------------------
    // Interlocks
    // -------------------------------------------------------------------------

    /** `automation_eval_condition` over the live state store. */
    function TestCondition(k: Condition): (holds: bool)
      requires Valid()
      reads Frame()
      ensures holds == EvalCondition(LiveView().plant.store.values, k)
    {
      var values := guards.table.values;
      if k.channel >= MAX_ENTRIES then false
      else
        var v := values[k.channel];
        if k.op < OP_MAX then EvalOp(k.op, v, k.target) else v == k.target
    }

    /** `automation_eval_interlock` over the live state store. */
    function TestInterlock(k: Interlock): (permitted: bool)
      requires Valid() && k.WellFormed()
      reads Frame()
      ensures permitted == Permitted(LiveView().plant.store.values, k)
    {
      if !k.enabled || k.condCount == 0 then true
      else if k.condCount == 1 then TestCondition(k.conditions[0])
      else
        var c0, c1 := TestCondition(k.conditions[0]), TestCondition(k.conditions[1]);
        if k.logicOp == 1 then c0 || c1 else c0 && c1
    }

    /** The handler's inner loop: whether the channel is one of the interlock's. */
    method WatchesChannel(k: Interlock, channel: u16) returns (found: bool)
      requires Valid() && k.WellFormed()
      ensures Valid() && ConfigView() == old(ConfigView()) && LiveView() == old(LiveView())
      ensures found == Watches(k, channel)
    {
      var c: u8 := 0;
      while c < k.condCount
        invariant c <= k.condCount
        invariant forall m :: 0 <= m < c ==> k.conditions[m].channel != channel
      {
        if k.conditions[c].channel == channel {
          return true;
        }
        c := c + 1;
      }
      found := false;
    }

    // -------------------------------------------------------------------------
    // Dispatching to an output
    // -------------------------------------------------------------------------

    method MarkActionAt(env: Env, i: nat, output: u16, value: i32, outcome: Outcome, local: bool)
      requires Valid() && i < count
      modifies diags
      ensures Valid() && ConfigView() == old(ConfigView())
      ensures LiveView() == old(LiveView()).(diags := old(LiveView()).diags[i :=
                  MarkAction(old(LiveView()).diags[i], env, output, value, outcome, local)])
    {
      diags[i] := diags[i].(lastAction := env.now, value := value != 0, outcome := outcome, local := local,
                            owner := env.owner(output), original := env.original(output));
      assert diags[..count] == old(diags[..count])[i := diags[i]];
    }

    method DispatchOutput(env: Env, output: u16, value: i32, i: nat) returns (outcome: Outcome)
      requires Valid() && i < count
      modifies this`remote, diags, PlantFrame()
      ensures Valid() && ConfigView() == old(ConfigView())
      ensures LiveView() == Dispatch(ConfigView(), old(LiveView()), env, output, value, i)
      ensures outcome == DispatchOutcome(ConfigView(), old(LiveView()), env, output)
    {
      hide Plant.Guard, Plant.Command, Find, Plant.Allows, MarkAction, Store.Write;
      ghost var l := LiveView();
      CommandUnfolds(l.plant, output, value);
      if env.local(output) {
        var allowed, effective := guards.GuardCommand(output, value);
        if !allowed {
          GuardRefuses(l.plant, output, value);
          MarkActionAt(env, i, output, value, BlockedFailSafe, true);
          return BlockedFailSafe;
        }
        var _ := guards.table.SetInt(output, effective);
        MarkActionAt(env, i, output, effective, AppliedLocal, true);
        return AppliedLocal;
      }
      outcome :=
        if env.selfNode == 0 || env.owner(output) == 0 then TargetUnresolved
        else if env.offline(env.owner(output)) then RemoteOwnerOffline
        else if !hasQueue || |remote| >= REMOTE_QUEUE then DispatchFailed
        else DispatchedRemote;
      if outcome == DispatchedRemote {
        remote := remote + [RemoteCommand(env.owner(output), env.selfNode, output, value)];
      }
      MarkActionAt(env, i, output, value, outcome, false);
    }

    /** Record what rule `i` is about to do. */
    ghost method RecordAction(i: nat, a: Action)
      requires Valid() && i < count
      modifies this`hist
      ensures Valid() && ConfigView() == old(ConfigView()) && LiveView() == Done(old(LiveView()), i, a)
    {
      hist := hist[i := hist[i].(done := hist[i].done + [Doing(|hist[i].seen|, a)])];
    }

    /** Drive one of the rule's two configured values. */
    method ApplyOutput(env: Env, n: Rule, i: nat, truth: bool)
      requires Valid() && i < count && n == rules[i]
      modifies this`remote, this`hist, diags, PlantFrame()
      ensures Valid() && ConfigView() == old(ConfigView())
      ensures LiveView() == Perform(ConfigView(), old(LiveView()), env, i, Branch(truth))
    {
      hide Dispatch, DispatchOutcome;
      RecordAction(i, Branch(truth));
      var _ := DispatchOutput(env, n.output, if truth then n.onTrue else n.onFalse, i);
    }

    method ToggleOutput(env: Env, n: Rule, i: nat)
      requires Valid() && i < count && n == rules[i]
      modifies this`remote, this`hist, diags, PlantFrame()
      ensures Valid() && ConfigView() == old(ConfigView())
      ensures LiveView() == Perform(ConfigView(), old(LiveView()), env, i, Toggle)
    {
      hide Dispatch, DispatchOutcome;
      RecordAction(i, Toggle);
      var _, current := guards.table.GetInt(n.output);
      var _ := DispatchOutput(env, n.output, if current != 0 then 0 else 1, i);
    }

    method ForceOutput(env: Env, n: Rule, i: nat, on: bool)
      requires Valid() && i < count && n == rules[i]
      modifies this`remote, this`hist, diags, PlantFrame()
      ensures Valid() && ConfigView() == old(ConfigView())
      ensures LiveView() == Perform(ConfigView(), old(LiveView()), env, i, Force(on))
    {
      hide Dispatch, DispatchOutcome;
      RecordAction(i, Force(on));
      var _ := DispatchOutput(env, n.output, if on then 1 else 0, i);
    }

    // -------------------------------------------------------------------------
    // Runtimes
    // -------------------------------------------------------------------------

    /** Record what rule `i` observed. */
    ghost method Record(i: nat, o: Obs)
      requires Valid() && i < count
      modifies this`hist
      ensures Valid() && ConfigView() == old(ConfigView())
      ensures LiveView() == old(LiveView()).(hist := old(LiveView().hist)[i :=
                  old(LiveView().hist[i]).(seen := old(LiveView().hist[i]).seen + [o])])
    {
      hist := hist[i := hist[i].(seen := hist[i].seen + [o])];
    }

    method MarkEval(env: Env, i: nat, cond: bool)
      requires Valid() && i < count
      modifies diags
      ensures Valid() && ConfigView() == old(ConfigView())
      ensures LiveView() == old(LiveView()).(diags := old(LiveView().diags)[i :=
                  old(LiveView().diags[i]).(lastTrigger := env.now, lastEval := env.now, condition := cond)])
    {
      diags[i] := diags[i].(lastTrigger := env.now, lastEval := env.now, condition := cond);
      assert diags[..count] == old(diags[..count])[i := diags[i]];
    }

    method SetRuntime(i: nat, rt: Runtime)
      requires Valid() && i < count
      modifies rts
      ensures Valid() && ConfigView() == old(ConfigView()) && rts[i] == rt
      ensures LiveView() == old(LiveView()).(rts := old(LiveView().rts)[i := rt])
    {
      rts[i] := rt;
      assert rts[..count] == old(rts[..count])[i := rt];
    }

    // -------------------------------------------------------------------------
    // State-change events
    // -------------------------------------------------------------------------

    /** The arrays hold what the views show. */
    lemma Entries(i: nat)
      requires Valid() && i < count
      ensures i < rules.Length && i < locks.Length && i < rts.Length && i < diags.Length
      ensures rules[i] == ConfigView().rules[i] && locks[i] == ConfigView().locks[i] && locks[i].WellFormed()
      ensures rts[i] == LiveView().rts[i] && diags[i] == LiveView().diags[i]
      ensures guards.Valid() && guards.View() == LiveView().plant && View().live == LiveView()
    {
    }

    /** The body of the handler's first loop. */
    method EvalRule(env: Env, ev: Event, i: nat)
      requires Valid() && i < count
      modifies this`remote, this`hist, rts, diags, PlantFrame()
      ensures Valid() && ConfigView() == old(ConfigView())
      ensures LiveView() == Trigger(ConfigView(), old(LiveView()), env, ev, i)
    {
      hide Valid, View, ConfigView, LiveView, Trigger, Evaluated, Perform, Permitted, MarkAction, EvalRuntime,
           EvalAction, Assessed, EvalOp, TestInterlock;
      Entries(i);
      TriggerUnfolds(ConfigView(), LiveView(), env, ev, i);
      var n := rules[i];
      if n.input != ev.source {
        return;
      }
      ghost var c, l := ConfigView(), LiveView();
      ghost var o := Evaluated(c, l, env, ev, i);
      var cond := EvalOp(n.op, env.scaled(ev.source, ev.data), n.threshold);
      var was := rts[i];
      var rising := cond && !was.condition;
      Assess(env, i, cond, o);
      AssessedThen(l, env, i, o, was.(condition := cond), EvalRuntime(n, was, tick, cond, o.permitted));
      Entries(i);
      if cond {
        if !TestInterlock(locks[i]) {
          MarkActionAt(env, i, n.output, n.onTrue, BlockedFailSafe, env.local(n.output));
          BlockedRuntime(n, was, c.tick);
          return;
        }
      }
      Drive(env, n, i, was, cond, rising, o.permitted);
    }

    /** Note the condition, for the diagnostics too. */
    method Assess(env: Env, i: nat, cond: bool, ghost o: Obs)
      requires Valid() && i < count && o.Eval? && o.cond == cond
      modifies this`hist, rts, diags
      ensures Valid() && ConfigView() == old(ConfigView())
      ensures LiveView() == Assessed(old(LiveView()), env, i, o, old(LiveView()).rts[i].(condition := cond))
    {
      hide Valid, View, ConfigView, LiveView;
      Entries(i);
      SetRuntime(i, rts[i].(condition := cond));
      Record(i, o);
      MarkEval(env, i, cond);
    }

    lemma BlockedRuntime(r: Rule, rt: Runtime, tick: u32)
      ensures EvalRuntime(r, rt, tick, true, false) == rt.(condition := true)
    {
    }

    /** The handler's switch on the rule's mode. */
    method Drive(env: Env, n: Rule, i: nat, ghost was: Runtime, cond: bool, rising: bool, ghost permitted: bool)
      requires Valid() && i < count && n == rules[i]
      requires rts[i] == was.(condition := cond) && rising == (cond && !was.condition) && (cond ==> permitted)
      modifies this`remote, this`hist, rts, diags, PlantFrame()
      ensures Valid() && ConfigView() == old(ConfigView())
      ensures LiveView() ==
                Perform(ConfigView(),
                        old(LiveView()).(rts := old(LiveView()).rts[i := EvalRuntime(n, was, tick, cond, permitted)]),
                        env, i, EvalAction(n, was, cond, permitted))
    {
      hide Valid, View, ConfigView, LiveView, Perform;
      Entries(i);
      ghost var c, l, rt := ConfigView(), LiveView(), EvalRuntime(n, was, tick, cond, permitted);
      PerformIgnoresRuntimes(c, l, l.rts[i := rt], env, i, EvalAction(n, was, cond, permitted));
      NothingDone(c, l, env, i);
      assert l.rts[i := rts[i]] == l.rts;
      if n.mode == FOLLOW {
        ApplyOutput(env, n, i, cond);
        SetRuntime(i, rts[i].(timerActive := false, pulseActive := false, latchedTrue := cond));
      } else if n.mode == PULSE_MS {
        if rising {
          ApplyOutput(env, n, i, true);
          SetRuntime(i, rts[i].(pulseActive := true, timerActive := true, deadline := DeadlineAfter(n.duration)));
        }
      } else if n.mode == ON_DELAY_MS {
        if cond {
          SetRuntime(i, rts[i].(latchedTrue := false, timerActive := true, deadline := DeadlineAfter(n.duration)));
          ApplyOutput(env, n, i, false);
        } else {
          SetRuntime(i, rts[i].(timerActive := false, latchedTrue := false));
          ApplyOutput(env, n, i, false);
        }
      } else if n.mode == OFF_DELAY_MS {
        if cond {
          SetRuntime(i, rts[i].(timerActive := false, latchedTrue := true));
          ApplyOutput(env, n, i, true);
        } else {
          SetRuntime(i, rts[i].(timerActive := true, deadline := DeadlineAfter(n.duration)));
        }
      } else if n.mode == TOGGLE {
        if rising { ToggleOutput(env, n, i); }
      } else if n.mode == MODE_FORCE_ON {
        if rising { ForceOutput(env, n, i, true); }
      } else if n.mode == MODE_FORCE_OFF {
        if rising { ForceOutput(env, n, i, false); }
      }
    }

    function DeadlineAfter(duration: u16): u32
      reads this`tick
    {
      Add32(tick, duration)
    }

    /** The body of the handler's second loop: switch off what has lost its permission. */
    method GuardOutput(env: Env, ev: Event, i: nat)
      requires Valid() && i < count
      modifies this`remote, this`hist, rts, diags, PlantFrame()
      ensures Valid() && ConfigView() == old(ConfigView())
      ensures LiveView() == GuardRule(ConfigView(), old(LiveView()), env, ev, i)
    {
      hide Valid, View, ConfigView, LiveView, Perform, Permitted, Watches, TestInterlock;
      Entries(i);
      var n, k := rules[i], locks[i];
      if !k.enabled || k.condCount == 0 {
        return;
      }
      var watched := WatchesChannel(k, ev.source);
      if watched {
        var ok, value := ReadState(n.output);
        Entries(i);
        if ok && value != 0 && !TestInterlock(k) {
          SetRuntime(i, rts[i].(timerActive := false, pulseActive := false, latchedTrue := false));
          Record(i, Trip);
          Entries(i);
          ApplyOutput(env, n, i, false);
        }
      }
    }

    method HandleStateEvent(env: Env, ev: Event)
      requires Valid()
      modifies this`remote, this`hist, rts, diags, PlantFrame()
      ensures Valid() && ConfigView() == old(ConfigView())
      ensures LiveView() == HandleEvent(ConfigView(), old(LiveView()), env, ev)
    {
      hide Trigger, GuardRule, Valid, ConfigView, LiveView;
      if ev.kind != STATE_CHANGE {
        return;
      }
      ghost var c, l := ConfigView(), LiveView();
      var i := 0;
      while i < count
        invariant 0 <= i <= count && Valid() && ConfigView() == c && c.Valid() && l.Fits(c)
        invariant LiveView() == TriggerUpto(c, l, env, ev, i)
      {
        EvalRule(env, ev, i);
        i := i + 1;
      }
      ghost var m := LiveView();
      i := 0;
      while i < count
        invariant 0 <= i <= count && Valid() && ConfigView() == c && c.Valid() && m.Fits(c)
        invariant LiveView() == GuardUpto(c, m, env, ev, i)
      {
        GuardOutput(env, ev, i);
        i := i + 1;
      }
    }

    method TakeNext() returns (found: bool, ev: Event)
      requires Valid()
      modifies PlantFrame()
      ensures Valid() && ConfigView() == old(ConfigView())
      ensures found == (old(LiveView()).plant.store.bus.pending != [])
      ensures found ==> ev == old(LiveView()).plant.store.bus.pending[0]
      ensures LiveView() == if found then old(LiveView()).(plant := TakeEvent(old(LiveView()).plant))
              else old(LiveView())
    {
      found, ev := guards.table.bus.Take();
    }

    /** `event_bus_dispatch_budgeted`, with this engine's handler on the state-change route. */
    method DispatchBudgeted(env: Env, budget: u8) returns (processed: u8)
      requires Valid()
      modifies this`remote, this`hist, rts, diags, PlantFrame()
      ensures Valid() && ConfigView() == old(ConfigView()) && processed <= budget
      ensures LiveView() == DispatchEvents(ConfigView(), old(LiveView()), env, budget)
      ensures DeliveredCount(LiveView()) == DeliveredCount(old(LiveView())) + processed as nat
    {
      hide HandleEvent, DispatchEvents, TakeEvent, DeliveredCount, Valid, ConfigView, LiveView;
      processed := 0;
      ghost var c, l := ConfigView(), LiveView();
      while processed < budget
        invariant processed <= budget && Valid() && ConfigView() == c && c.Valid() && l.Fits(c)
        invariant DeliveredCount(LiveView()) == DeliveredCount(l) + processed as nat
        invariant DispatchEvents(c, LiveView(), env, budget as nat - processed as nat) ==
                  DispatchEvents(c, l, env, budget)
      {
        DispatchUnfolds(c, LiveView(), env, budget as nat - processed as nat);
        if LiveView().plant.store.bus.pending != [] { TakingDelivers(LiveView()); }
        var found, ev := TakeNext();
        if !found {
          return;
        }
        HandlingDelivers(c, LiveView(), env, ev);
        HandleStateEvent(env, ev);
        processed := processed + 1;
      }
      DispatchUnfolds(c, LiveView(), env, 0);
    }

    // -------------------------------------------------------------------------
    // The millisecond tick
    // -------------------------------------------------------------------------

    /** The body of the tick's loop. */
    method TickOne(env: Env, i: nat)
      requires Valid() && i < count
      modifies this`remote, this`hist, rts, diags, PlantFrame()
      ensures Valid() && ConfigView() == old(ConfigView())
      ensures LiveView() == TickRule(ConfigView(), old(LiveView()), env, i)
    {
      hide Valid, View, ConfigView, LiveView, Perform, TimeReached;
      Entries(i);
      var n := rules[i];
      Record(i, Tick);
      Entries(i);
      ghost var c, l := ConfigView(), LiveView();
      ghost var rt, a := TickRuntime(n, rts[i], tick), TickAction(n, rts[i], tick);
      PerformIgnoresRuntimes(c, l, l.rts[i := rt], env, i, a);
      NothingDone(c, l, env, i);
      assert l.rts[i := rts[i]] == l.rts;
      if !rts[i].timerActive || !TimeReached(tick, rts[i].deadline) {
        return;
      }
      Expire(env, n, i);
    }

    /** The tick's switch on the mode of a rule whose timer has run out. */
    method Expire(env: Env, n: Rule, i: nat)
      requires Valid() && i < count && n == rules[i] && rts[i].timerActive && TimeReached(tick, rts[i].deadline)
      modifies this`remote, this`hist, rts, diags, PlantFrame()
      ensures Valid() && ConfigView() == old(ConfigView())
      ensures LiveView() ==
                Perform(ConfigView(),
                        old(LiveView()).(rts := old(LiveView()).rts[i := TickRuntime(n, old(rts[i]), tick)]),
                        env, i, TickAction(n, old(rts[i]), tick))
    {
      hide Valid, View, ConfigView, LiveView, Perform, TimeReached;
      Entries(i);
      ghost var c, l := ConfigView(), LiveView();
      ghost var rt, a := TickRuntime(n, rts[i], tick), TickAction(n, rts[i], tick);
      NothingDone(c, l.(rts := l.rts[i := rt]), env, i);
      SetRuntime(i, rts[i].(timerActive := false));
      Entries(i);
      if n.mode == PULSE_MS {
        if rts[i].pulseActive {
          SetRuntime(i, rts[i].(pulseActive := false));
          Entries(i);
          assert LiveView() == l.(rts := l.rts[i := rt]);
          ApplyOutput(env, n, i, false);
        }
      } else if n.mode == ON_DELAY_MS {
        if rts[i].condition {
          SetRuntime(i, rts[i].(latchedTrue := true));
          Entries(i);
          assert LiveView() == l.(rts := l.rts[i := rt]);
          ApplyOutput(env, n, i, true);
        }
      } else if n.mode == OFF_DELAY_MS {
        if !rts[i].condition {
          SetRuntime(i, rts[i].(latchedTrue := false));
          Entries(i);
          assert LiveView() == l.(rts := l.rts[i := rt]);
          ApplyOutput(env, n, i, false);
        }
      }
    }

    method AdvanceClock()
      requires Valid()
      modifies this`tick
      ensures Valid() && LiveView() == old(LiveView())
      ensures ConfigView() == old(ConfigView()).(tick := Add32(old(tick), 1))
    {
      tick := Add32(tick, 1);
    }

    method Tick1ms(env: Env)
      requires Valid()
      modifies this`tick, this`remote, this`hist, rts, diags, PlantFrame()
      ensures Valid() && View() == TickAll(old(View()), env)
    {
      ViewParts();
      RunTick(env);
      ViewParts();
    }

    lemma ViewParts()
      requires Valid()
      ensures View() == World(ConfigView(), LiveView(), flash, persisted) && View().Shaped()
    {
    }

    /** The tick's loop over every rule. */
    method RunTick(env: Env)
      requires Valid()
      modifies this`tick, this`remote, this`hist, rts, diags, PlantFrame()
      ensures Valid() && ConfigView() == old(ConfigView()).(tick := Add32(old(tick), 1))
      ensures LiveView() == TickUpto(ConfigView(), old(LiveView()), env, count)
    {
      hide TickRule, Valid, ConfigView, LiveView;
      AdvanceClock();
      ghost var c, l := ConfigView(), LiveView();
      var i := 0;
      while i < count
        invariant 0 <= i <= count && Valid() && ConfigView() == c && c.Valid() && l.Fits(c)
        invariant LiveView() == TickUpto(c, l, env, i)
      {
        TickOne(env, i);
        i := i + 1;
      }
    }

    // -------------------------------------------------------------------------
    // Remote commands
    // -------------------------------------------------------------------------

    method HandleOutputCommand(env: Env, cmd: RemoteCommand)
      requires Valid()
      modifies PlantFrame()
      ensures Valid() && ConfigView() == old(ConfigView())
      ensures LiveView() == old(LiveView()).(plant := Receive(profile, old(LiveView().plant), env, cmd))
    {
      hide Plant.Guard, Plant.Command, Find, Plant.Allows, Store.Write;
      ghost var p := LiveView().plant;
      CommandUnfolds(p, cmd.output, cmd.value);
      if env.selfNode == 0 || cmd.target != env.selfNode {
        return;
      }
      if cmd.requester != 0 && cmd.requester != env.selfNode && !env.known(cmd.requester) {
        return;
      }
      if cmd.output !in profile.outputs {
        return;
      }
      var allowed, effective := guards.GuardCommand(cmd.output, cmd.value);
      if !allowed {
        GuardRefuses(p, cmd.output, cmd.value);
        return;
      }
      var _ := guards.table.SetInt(cmd.output, effective);
    }

    // -------------------------------------------------------------------------
    // Editing the rule table
    // -------------------------------------------------------------------------

    /** `automation_persist`; `saved` is whether the flash takes the write. */
    method PersistRules(saved: bool)
      requires Valid()
      modifies this`flash, this`persisted
      ensures Valid() && View() == Persist(old(View()), sum, saved)
    {
      var nodes, ilks := Pad(rules[..count], NO_RULE), Pad(locks[..count], NO_INTERLOCK);
      var b := Blob(MAGIC, VERSION, count, nodes, ilks, sum(MAGIC, VERSION, count, nodes, ilks));
      if saved {
        flash := b;
        persisted := true;
      }
    }

    /** The first rule that stops the candidate decides between duplicate and conflict. */
    method SearchTable(candidate: Rule) returns (r: AddResult)
      requires Valid()
      ensures Valid() && View() == old(View()) && ConfigView() == old(ConfigView())
      ensures r in {Ok, Duplicate, Conflict}
      ensures r == Ok <==> TableVerdict(ConfigView().rules, candidate) == Ok
      ensures ConflictFree(ConfigView().rules) ==> r == TableVerdict(ConfigView().rules, candidate)
    {
      hide Conflicts;
      ghost var table := ConfigView().rules;
      var i := 0;
      while i < count
        invariant 0 <= i <= count
        invariant forall k :: 0 <= k < i ==> table[k] != candidate && !Conflicts(table[k], candidate)
      {
        assert rules[i] == table[i];
        if rules[i] == candidate {
          return Duplicate;
        }
        if Conflicts(rules[i], candidate) {
          if candidate in table {
            var j :| 0 <= j < count && table[j] == candidate;
            NoSelfConflict(candidate);
            assert i < j;
          }
          return Conflict;
        }
        i := i + 1;
      }
      r := Ok;
    }

    /** Put a fresh rule, with no interlock and a cleared runtime, after the last one. */
    method Append(r: Rule)
      requires Valid() && count < MAX_RULES
      modifies this`count, this`hist, rules, locks, rts, diags
      ensures Valid() && View() == Install(old(View()), r)
    {
      rules[count] := r;
      locks[count] := NO_INTERLOCK;
      rts[count] := IDLE;
      diags[count] := NO_DIAG;
      count := count + 1;
      hist := hist + [NO_LOG];
      assert rules[..count] == old(rules[..count]) + [r];
      assert locks[..count] == old(locks[..count]) + [NO_INTERLOCK];
      assert rts[..count] == old(rts[..count]) + [IDLE];
      assert diags[..count] == old(diags[..count]) + [NO_DIAG];
    }

    /**
     * `automation_engine_add_rule`. The verdict tells duplicate from conflict by whichever comes
     * first, which is unambiguous while the table is free of conflicts.
     */
    method AddRule(env: Env, saved: bool, q: Request) returns (r: AddResult)
      requires Valid()
      modifies this, rules, locks, rts, diags, PlantFrame()
      ensures Valid() && View() == Automation.AddRule(old(View()), env, sum, saved, q)
      ensures (r == Ok) == (Verdict(old(ConfigView()), q) == Ok)
      ensures ConflictFree(old(ConfigView()).rules) ==> r == Verdict(old(ConfigView()), q)
    {
      hide *;
      ViewParts();
      AddUnfolds(View(), env, sum, saved, q);
      VerdictUnfolds(ConfigView(), q);
      if q.onTrue < 0 || q.onTrue > 1 || q.onFalse < 0 || q.onFalse > 1 {
        return Invalid;
      }
      var candidate := q.Candidate();
      if !RuleValid(profile, candidate) {
        return Invalid;
      }
      r := SearchTable(candidate);
      if r != Ok {
        return;
      }
      if count >= MAX_RULES {
        return Full;
      }
      Append(candidate);
      PersistRules(saved);
      ViewParts();
      var ok, value := ReadState(candidate.input);
      if ok {
        ViewParts();
        HandleStateEvent(env, Event(STATE_CHANGE, candidate.input, value));
        ViewParts();
      }
    }

    method ReadState(id: u16) returns (ok: bool, v: i32)
      requires Valid()
      ensures Valid() && View() == old(View()) && LiveView() == old(LiveView()) && ConfigView() == old(ConfigView())
      ensures ok == (id < |LiveView().plant.store.values|)
      ensures ok ==> v == LiveView().plant.store.values[id]
    {
      ok, v := guards.table.GetInt(id);
    }

    /** `automation_engine_set_interlock_at`; `NO_INTERLOCK` stands for a null argument. */
    method SetInterlockAt(index: int, k: Interlock, saved: bool) returns (ok: bool)
      requires Valid() && k.WellFormed()
      modifies this`flash, this`persisted, locks
      ensures Valid() && View() == SetInterlock(old(View()), sum, saved, index, k)
      ensures ok == (0 <= index < count)
    {
      hide Persist;
      if index < 0 || index >= count {
        return false;
      }
      locks[index] := k;
      assert locks[..count] == old(locks[..count])[index := k];
      PersistRules(saved);
      ok := true;
    }

    /** The loop of the removal: every later entry of every array moves down one. */
    method ShiftDown(index: nat)
      requires index < count <= MAX_RULES == rules.Length == locks.Length == rts.Length == diags.Length
      modifies rules, locks, rts, diags
      ensures rules[..count - 1] == Without(old(rules[..count]), index)
      ensures locks[..count - 1] == Without(old(locks[..count]), index)
      ensures rts[..count - 1] == Without(old(rts[..count]), index)
      ensures diags[..count - 1] == Without(old(diags[..count]), index)
    {
      hide Shifted, Without;
      ghost var r0, k0, t0, d0 := rules[..], locks[..], rts[..], diags[..];
      ShiftedNone(r0, index); ShiftedNone(k0, index); ShiftedNone(t0, index); ShiftedNone(d0, index);
      var i := index;
      while i < count - 1
        invariant index <= i < count
        invariant rules[..] == Shifted(r0, index, i) && locks[..] == Shifted(k0, index, i)
        invariant rts[..] == Shifted(t0, index, i) && diags[..] == Shifted(d0, index, i)
      {
        ShiftedNext(r0, index, i); ShiftedNext(k0, index, i); ShiftedNext(t0, index, i); ShiftedNext(d0, index, i);
        Move(rules, i);
        Move(locks, i);
        Move(rts, i);
        Move(diags, i);
        i := i + 1;
      }
      ShiftedAll(r0, index, count); ShiftedAll(k0, index, count);
      ShiftedAll(t0, index, count); ShiftedAll(d0, index, count);
    }

    /** The shift, then clearing the slot that falls free. */
    method Vacate(index: nat)
      requires index < count <= MAX_RULES == rules.Length == locks.Length == rts.Length == diags.Length
      modifies rules, locks, rts, diags
      ensures rules[..count - 1] == Without(old(rules[..count]), index)
      ensures locks[..count - 1] == Without(old(locks[..count]), index)
      ensures rts[..count - 1] == Without(old(rts[..count]), index)
      ensures diags[..count - 1] == Without(old(diags[..count]), index)
    {
      hide Without;
      ShiftDown(index);
      ClearSlot(rules, count - 1, NO_RULE);
      ClearSlot(locks, count - 1, NO_INTERLOCK);
      ClearSlot(rts, count - 1, IDLE);
      ClearSlot(diags, count - 1, NO_DIAG);
    }

    /** Remove entry `index` from every array together, and clear the slot that falls free. */
    method Extract(index: nat)
      requires Valid() && index < count
      modifies this`count, this`hist, rules, locks, rts, diags
      ensures Valid() && count == old(count) - 1
      ensures ConfigView() == old(ConfigView()).(rules := Without(old(ConfigView()).rules, index),
                                                 locks := Without(old(ConfigView()).locks, index))
      ensures LiveView() == old(LiveView()).(rts := Without(old(LiveView()).rts, index),
                                             diags := Without(old(LiveView()).diags, index),
                                             hist := Without(old(LiveView()).hist, index))
    {
      hide Without, LocksWellFormed;
      WithoutWellFormed(locks[..count], index);
      WithoutLength(hist, index);
      Vacate(index);
      count := count - 1;
      hist := Without(hist, index);
    }

    method RemoveNodeAt(index: int, saved: bool) returns (ok: bool)
      requires Valid()
      modifies this, rules, locks, rts, diags
      ensures Valid() && View() == RemoveRule(old(View()), sum, saved, index)
      ensures ok == (0 <= index < old(count))
    {
      hide Valid, View, ConfigView, LiveView, Persist;
      ViewParts();
      if index < 0 || index >= count {
        return false;
      }
      Extract(index);
      ViewParts();
      PersistRules(saved);
      ok := true;
    }

    method EraseAll()
      requires Valid()
      modifies this`count, this`hist, rules, locks, rts, diags
      ensures Valid() && count == 0
      ensures ConfigView() == old(ConfigView()).(rules := [], locks := [])
      ensures LiveView() == old(LiveView()).(rts := [], diags := [], hist := [])
    {
      count, hist := 0, [];
      Fill(rules, NO_RULE);
      Fill(locks, NO_INTERLOCK);
      Fill(rts, IDLE);
      Fill(diags, NO_DIAG);
    }

    method Clear(saved: bool)
      requires Valid()
      modifies this, rules, locks, rts, diags
      ensures Valid() && View() == ClearRules(old(View()), sum, saved)
    {
      hide Valid, View, ConfigView, LiveView, Persist;
      ViewParts();
      EraseAll();
      ViewParts();
      PersistRules(saved);
    }
  }

  /** The table's part of the verdict. */
  function TableVerdict(rules: seq<Rule>, candidate: Rule): AddResult {
    if candidate in rules then Duplicate
    else if exists i :: 0 <= i < |rules| && Conflicts(rules[i], candidate) then Conflict
    else Ok
  }

  lemma VerdictUnfolds(c: Config, q: Request)
    ensures q.onTrue < 0 || q.onTrue > 1 || q.onFalse < 0 || q.onFalse > 1 <==>
              q.onTrue !in {0, 1} || q.onFalse !in {0, 1}
    ensures q.onTrue !in {0, 1} || q.onFalse !in {0, 1} ==> Verdict(c, q) == Invalid
    ensures q.onTrue in {0, 1} && q.onFalse in {0, 1} ==>
              Verdict(c, q) ==
                if !RuleValid(c.profile, q.Candidate()) then Invalid
                else if TableVerdict(c.rules, q.Candidate()) != Ok then TableVerdict(c.rules, q.Candidate())
                else if |c.rules| >= MAX_RULES then Full
                else Ok
  {
    hide Conflicts, RuleValid;
  }

  lemma AddUnfolds(w: World, env: Env, sum: Checksum, saved: bool, q: Request)
    requires w.Shaped()
    ensures Verdict(w.config, q) != Ok ==> Automation.AddRule(w, env, sum, saved, q) == w
    ensures Verdict(w.config, q) == Ok ==>
              && q.onTrue in {0, 1} && q.onFalse in {0, 1}
              && |Install(w, q.Candidate()).config.rules| <= MAX_RULES
              && var r := q.Candidate();
                 var w1 := Persist(Install(w, r), sum, saved);
                 && w1.Shaped() && w1.live.plant == w.live.plant
                 && Automation.AddRule(w, env, sum, saved, q) ==
                      if r.input < |w.live.plant.store.values|
                      then w1.(live := HandleEvent(w1.config, w1.live, env,
                        Event(STATE_CHANGE, r.input, w.live.plant.store.values[r.input])))
                      else w1
  {
    hide HandleEvent, RuleValid, Conflicts;
  }

  lemma WithoutLength<T>(s: seq<T>, k: nat)
    requires k < |s|
    ensures |Without(s, k)| == |s| - 1
  {
  }

  lemma WithoutWellFormed(s: seq<Interlock>, k: nat)
    requires k < |s| && LocksWellFormed(s)
    ensures LocksWellFormed(Without(s, k))
  {
  }

  lemma TableGrows(p: Profile, nodes: seq<Rule>, i: nat)
    requires i < |nodes| && AllValid(p, nodes[..i]) && ConflictFree(nodes[..i]) && RuleValid(p, nodes[i])
    requires forall j :: 0 <= j < i ==> !Conflicts(nodes[j], nodes[i])
    ensures AllValid(p, nodes[..i + 1]) && ConflictFree(nodes[..i + 1])
  {
    hide RuleValid, Conflicts;
    assert nodes[..i + 1] == nodes[..i] + [nodes[i]];
  }

  /** `memset` of the slot after the last entry. */
  method ClearSlot<T>(a: array<T>, k: nat, filler: T)
    requires k < a.Length
    modifies a
    ensures a[..k] == old(a[..k]) && a[k] == filler
  {
    a[k] := filler;
  }

  method Move<T>(a: array<T>, i: nat)
    requires i + 1 < a.Length
    modifies a
    ensures a[..] == old(a[..])[i := old(a[..])[i + 1]]
  {
    a[i] := a[i + 1];
  }

  /** `s` after the entries from `index + 1` to `i` have moved down one. */
  ghost function Shifted<T>(s: seq<T>, index: nat, i: nat): seq<T>
    requires index <= i < |s|
  {
    s[..index] + s[index + 1..i + 1] + s[i..]
  }

  lemma ShiftedNone<T>(s: seq<T>, index: nat)
    requires index < |s|
    ensures Shifted(s, index, index) == s
  {
  }

  lemma ShiftedNext<T>(s: seq<T>, index: nat, i: nat)
    requires index <= i && i + 1 < |s|
    ensures var t := Shifted(s, index, i);
            |t| == |s| && t[i + 1] == s[i + 1] && Shifted(s, index, i + 1) == t[i := t[i + 1]]
  {
  }

  lemma ShiftedAll<T>(s: seq<T>, index: nat, n: nat)
    requires index < n <= |s|
    ensures |Shifted(s, index, n - 1)| == |s| && Shifted(s, index, n - 1)[..n - 1] == Without(s[..n], index)
  {
  }

  /** `memset` of a whole array. */
  method Fill<T>(a: array<T>, filler: T)
    modifies a
    ensures forall k :: 0 <= k < a.Length ==> a[k] == filler
  {
    forall k | 0 <= k < a.Length { a[k] := filler; }
  }

  lemma NoSelfConflict(r: Rule)
    ensures !Conflicts(r, r)
  {
  }

  lemma CommandUnfolds(p: Plant, output: u16, v: i32)
    ensures p.Allows(output) ==>
              p.Command(output, v) == p.Guard(output, v).(store := p.Guard(output, v).store.Write(output, Binary(v)))
  {
  }

  lemma GuardRefuses(p: Plant, output: u16, v: i32)
    ensures !p.Allows(output) ==> p.Guard(output, v) == p && p.Command(output, v) == p
  {
  }

  lemma DispatchUnfolds(c: Config, l: Live, env: Env, budget: nat)
    requires c.Valid() && l.Fits(c)
    ensures budget == 0 || l.plant.store.bus.pending == [] ==> DispatchEvents(c, l, env, budget) == l
    ensures budget > 0 && l.plant.store.bus.pending != [] ==>
              DispatchEvents(c, l, env, budget) ==
                DispatchEvents(c, HandleEvent(c, l.(plant := TakeEvent(l.plant)), env, l.plant.store.bus.pending[0]),
                  env, budget - 1)
  {
    hide HandleEvent, TakeEvent;
  }

  /** How many events the bus has delivered. */
  function DeliveredCount(l: Live): nat {
    |l.plant.store.bus.delivered|
  }

  lemma TakingDelivers(l: Live)
    requires l.plant.store.bus.pending != []
    ensures DeliveredCount(l.(plant := TakeEvent(l.plant))) == DeliveredCount(l) + 1
  {
  }

  lemma PerformingDelivers(c: Config, l: Live, env: Env, i: nat, a: Action)
    requires l.Fits(c) && i < |c.rules|
    ensures DeliveredCount(Perform(c, l, env, i, a)) == DeliveredCount(l)
  {
    hide Find, MarkAction, ActionValue;
  }

  lemma {:induction false} TriggersDeliver(c: Config, l: Live, env: Env, ev: Event, k: nat)
    requires c.Valid() && l.Fits(c) && k <= |c.rules|
    ensures DeliveredCount(TriggerUpto(c, l, env, ev, k)) == DeliveredCount(l)
  {
    hide Perform, DeliveredCount, Assessed, MarkAction, EvalAction, EvalRuntime;
    if k > 0 {
      TriggersDeliver(c, l, env, ev, k - 1);
      var m := TriggerUpto(c, l, env, ev, k - 1);
      var r, o := c.rules[k - 1], Evaluated(c, m, env, ev, k - 1);
      TriggerUnfolds(c, m, env, ev, k - 1);
      var m1 := Assessed(m, env, k - 1, o, EvalRuntime(r, m.rts[k - 1], c.tick, o.cond, o.permitted));
      AssessingDelivers(m, env, k - 1, o, EvalRuntime(r, m.rts[k - 1], c.tick, o.cond, o.permitted));
      hide Trigger;
      PerformingDelivers(c, m1, env, k - 1, EvalAction(r, m.rts[k - 1], o.cond, o.permitted));
    }
  }

  lemma AssessingDelivers(l: Live, env: Env, i: nat, o: Obs, rt: Runtime)
    requires i < |l.rts| && i < |l.diags| && i < |l.hist| && o.Eval?
    ensures var m := Assessed(l, env, i, o, rt);
            && |m.rts| == |l.rts| && |m.diags| == |l.diags| && |m.hist| == |l.hist|
            && forall d :: DeliveredCount(m.(diags := d)) == DeliveredCount(l)
    ensures DeliveredCount(Assessed(l, env, i, o, rt)) == DeliveredCount(l)
  {
  }

  lemma {:induction false} GuardsDeliver(c: Config, l: Live, env: Env, ev: Event, k: nat)
    requires c.Valid() && l.Fits(c) && k <= |c.rules|
    ensures DeliveredCount(GuardUpto(c, l, env, ev, k)) == DeliveredCount(l)
  {
    hide Perform, Trips, TripRuntime;
    if k > 0 {
      GuardsDeliver(c, l, env, ev, k - 1);
      var m := GuardUpto(c, l, env, ev, k - 1);
      PerformingDelivers(c, Observe(m, k - 1, TripRuntime(m.rts[k - 1]), Trip), env, k - 1, Branch(false));
    }
  }

  /** Handling an event publishes, but delivers nothing. */
  lemma HandlingDelivers(c: Config, l: Live, env: Env, ev: Event)
    requires c.Valid() && l.Fits(c)
    ensures DeliveredCount(HandleEvent(c, l, env, ev)) == DeliveredCount(l)
  {
    hide TriggerUpto, GuardUpto, DeliveredCount;
    TriggersDeliver(c, l, env, ev, |c.rules|);
    GuardsDeliver(c, TriggerUpto(c, l, env, ev, |c.rules|), env, ev, |c.rules|);
  }

  /** Rule `i`'s entries once its evaluation is recorded, with runtime `rt`. */
  function Assessed(l: Live, env: Env, i: nat, o: Obs, rt: Runtime): Live
    requires i < |l.rts| && i < |l.diags| && i < |l.hist| && o.Eval?
  {
    l.(rts := l.rts[i := rt], hist := l.hist[i := l.hist[i].(seen := l.hist[i].seen + [o])],
       diags := l.diags[i := l.diags[i].(lastTrigger := env.now, lastEval := env.now, condition := o.cond)])
  }

  lemma AssessedThen(l: Live, env: Env, i: nat, o: Obs, first: Runtime, next: Runtime)
    requires i < |l.rts| && i < |l.diags| && i < |l.hist| && o.Eval?
    ensures var l1 := Assessed(l, env, i, o, first);
            l1.rts[i] == first && l1.(rts := l1.rts[i := next]) == Assessed(l, env, i, o, next)
  {
  }

  lemma TriggerUnfolds(c: Config, l: Live, env: Env, ev: Event, i: nat)
    requires c.Valid() && l.Fits(c) && i < |c.rules|
    ensures c.rules[i].input != ev.source ==> Trigger(c, l, env, ev, i) == l
    ensures c.rules[i].input == ev.source ==>
              var r, o := c.rules[i], Evaluated(c, l, env, ev, i);
              var l1 := Assessed(l, env, i, o, EvalRuntime(r, l.rts[i], c.tick, o.cond, o.permitted));
              && o == Eval(EvalOp(r.op, env.scaled(ev.source, ev.data), r.threshold),
                 Permitted(l.plant.store.values, c.locks[i]))
              && Trigger(c, l, env, ev, i) ==
                   if o.cond && !o.permitted
                   then l1.(diags := l1.diags[i := MarkAction(l1.diags[i], env, r.output, r.onTrue, BlockedFailSafe,
                     env.local(r.output))])
                   else Perform(c, l1, env, i, EvalAction(r, l.rts[i], o.cond, o.permitted))
  {
    hide Perform, Permitted, MarkAction, EvalRuntime, EvalAction;
  }

  lemma NothingDone(c: Config, l: Live, env: Env, i: nat)
    requires l.Fits(c) && i < |c.rules|
    ensures Perform(c, l, env, i, Nothing) == l
  {
  }

  /** What an action does to the plant and the diagnostics does not depend on the runtimes. */
  lemma PerformIgnoresRuntimes(c: Config, l: Live, rts: seq<Runtime>, env: Env, i: nat, a: Action)
    requires l.Fits(c) && i < |c.rules| && |rts| == |l.rts|
    ensures Perform(c, l.(rts := rts), env, i, a) == Perform(c, l, env, i, a).(rts := rts)
  {
    hide Plant.Command, MarkAction;
  }
}
