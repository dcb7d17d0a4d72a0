/** What the automation engine keeps over every run: timers in step, outputs latched, events in order. */
module AutomationRuns {
  import opened Words
  import opened EventBus
  import opened StateStore
  import opened FailSafe
  import opened AutomationRules
  import opened RuleTimers
  import opened Automation

  // ---------------------------------------------------------------------------
  // What commands, events and ticks may do to the plant
  // ---------------------------------------------------------------------------

  /** The bus only received: nothing was delivered and everything accepted before still is. */
  ghost predicate OnlyPublished(b: Bus, d: Bus) {
    d.Valid() && d.delivered == b.delivered && b.accepted <= d.accepted
  }

  /** Every output latched in `p` is latched in `q` with the same value. */
  ghost predicate LatchesHeld(p: Plant, q: Plant) {
    forall id: u16 :: p.Latched(id) ==> q.Latched(id) && q.store.Read(id) == p.store.Read(id)
  }

  ghost predicate Evolves(p: Plant, q: Plant) {
    q.Valid() && OnlyPublished(p.store.bus, q.store.bus) && LatchesHeld(p, q)
  }

  lemma EvolvesTransitive(p: Plant, q: Plant, r: Plant)
    requires Evolves(p, q) && Evolves(q, r)
    ensures Evolves(p, r)
  {
    hide Plant.Latched, Store.Read;
  }

  lemma EvolvesReflexive(p: Plant)
    requires p.Valid()
    ensures Evolves(p, p)
  {
    hide Plant.Latched, Store.Read;
  }

  lemma CommandEvolves(p: Plant, output: u16, v: i32)
    requires p.Valid()
    ensures Evolves(p, p.Command(output, v))
  {
    forall id: u16 | p.Latched(id)
      ensures p.Command(output, v).Latched(id) && p.Command(output, v).store.Read(id) == p.store.Read(id)
    {
      CommandRespectsLatch(p, output, v, id);
    }
    hide Plant.Latched, Find;
  }

  lemma PerformEvolves(c: Config, l: Live, env: Env, i: nat, a: Action)
    requires l.Fits(c) && i < |c.rules| && l.plant.Valid()
    ensures Evolves(l.plant, Perform(c, l, env, i, a).plant)
  {
    hide Evolves, Plant.Command, Plant.Allows;
    EvolvesReflexive(l.plant);
    CommandEvolves(l.plant, c.rules[i].output, ActionValue(l.plant, c.rules[i], a));
  }

  /** A rule's runtime and its log agree at clock `tick`: it has done exactly what its history called for. */
  predicate Tracks(r: Rule, rt: Runtime, g: Log, tick: u32) {
    InStep(r, rt, tick) && Abstract(rt, tick) == Replay(r, g.seen) && g.done == Doings(r, g.seen)
  }

  /** What holds of the engine between any two steps of a call, and after every call. */
  ghost predicate Sound(c: Config, l: Live) {
    && c.Valid() && l.Fits(c) && l.plant.Valid()
    && forall i :: 0 <= i < |c.rules| ==> Tracks(c.rules[i], l.rts[i], l.hist[i], c.tick)
  }

  lemma ObservedTracks(r: Rule, h: History, o: Obs)
    ensures Replay(r, h + [o]) == Step(r, Replay(r, h), o)
    ensures Emitted(r, h + [o]) == Act(r, Replay(r, h), o)
    ensures LogAfter(Log(h, Doings(r, h)), o, Emitted(r, h + [o])) == Log(h + [o], Doings(r, h + [o]))
  {
    assert Past(h + [o]) == h;
    hide Replay, Act;
  }

  /** Only rule `i`'s runtime, diagnostics and history differ. */
  predicate OnlyRule(l: Live, v: Live, i: nat) {
    && |v.rts| == |l.rts| && |v.hist| == |l.hist|
    && (forall j :: 0 <= j < |l.rts| && j != i ==> v.rts[j] == l.rts[j])
    && (forall j :: 0 <= j < |l.hist| && j != i ==> v.hist[j] == l.hist[j])
  }

  /**
   * Evaluating rule `i`: its runtime follows the countdown, it records what it observed, and the
   * action handed to its output is the one its history calls for.
   */
  lemma TriggerStep(c: Config, l: Live, env: Env, ev: Event, i: nat)
    requires Sound(c, l) && i < |c.rules|
    ensures Sound(c, Trigger(c, l, env, ev, i))
    ensures Evolves(l.plant, Trigger(c, l, env, ev, i).plant)
    ensures OnlyRule(l, Trigger(c, l, env, ev, i), i)
    ensures var o := Evaluated(c, l, env, ev, i);
            && Trigger(c, l, env, ev, i).hist[i] ==
                 (if c.rules[i].input == ev.source
                  then LogAfter(l.hist[i], o, EvalAction(c.rules[i], l.rts[i], o.cond, o.permitted)) else l.hist[i])
            && EvalAction(c.rules[i], l.rts[i], o.cond, o.permitted) == Emitted(c.rules[i], l.hist[i].seen + [o])
  {
    hide Evolves, Plant.Valid, Dispatch, ActionValue, Permitted, InStep, EvalRuntime, EvalAction, Abstract, Step, Act,
         Replay, Emitted, Doings;
    var r, o := c.rules[i], Evaluated(c, l, env, ev, i);
    EvolvesReflexive(l.plant);
    ObservedTracks(r, l.hist[i].seen, o);
    EvalRefines(r, l.rts[i], c.tick, o.cond, o.permitted);
    BlockedEvaluation(r, l.rts[i], c.tick, c.tick);
    if r.input == ev.source && (o.cond ==> o.permitted) {
      var d := l.diags[i].(lastTrigger := env.now, lastEval := env.now, condition := o.cond);
      var l1 := Observe(l, i, EvalRuntime(r, l.rts[i], c.tick, o.cond, o.permitted), o).(diags := l.diags[i := d]);
      PerformEvolves(c, l1, env, i, EvalAction(r, l.rts[i], o.cond, o.permitted));
    }
    EvolvesValid(l.plant, Trigger(c, l, env, ev, i).plant);
  }

  lemma EvolvesValid(p: Plant, q: Plant)
    requires Evolves(p, q)
    ensures q.Valid()
  {
  }

  lemma GuardStep(c: Config, l: Live, env: Env, ev: Event, i: nat)
    requires Sound(c, l) && i < |c.rules|
    ensures Sound(c, GuardRule(c, l, env, ev, i))
    ensures Evolves(l.plant, GuardRule(c, l, env, ev, i).plant)
    ensures OnlyRule(l, GuardRule(c, l, env, ev, i), i)
    ensures GuardRule(c, l, env, ev, i).hist[i] ==
              if Trips(c, l, ev, i) then LogAfter(l.hist[i], Trip, Branch(false)) else l.hist[i]
  {
    hide Evolves, Plant.Valid, Dispatch, ActionValue, Permitted, InStep, TripRuntime, Abstract, Step, Replay, Trips;
    EvolvesReflexive(l.plant);
    if Trips(c, l, ev, i) {
      ObservedTracks(c.rules[i], l.hist[i].seen, Trip);
      TripRefines(c.rules[i], l.rts[i], c.tick);
      PerformEvolves(c, Observe(l, i, TripRuntime(l.rts[i]), Trip), env, i, Branch(false));
    }
    EvolvesValid(l.plant, GuardRule(c, l, env, ev, i).plant);
  }

  /** After the first loop every rule on the event's input has observed exactly one evaluation. */
  lemma {:induction false} TriggersStep(c: Config, l: Live, env: Env, ev: Event, k: nat)
    requires Sound(c, l) && k <= |c.rules|
    ensures Sound(c, TriggerUpto(c, l, env, ev, k))
    ensures Evolves(l.plant, TriggerUpto(c, l, env, ev, k).plant)
    ensures forall i :: 0 <= i < |c.rules| ==>
              TriggerUpto(c, l, env, ev, k).hist[i].seen == l.hist[i].seen +
                if i < k && c.rules[i].input == ev.source
                then [Evaluated(c, TriggerUpto(c, l, env, ev, i), env, ev, i)] else []
  {
    hide Sound, Evolves, Trigger, Evaluated;
    SoundFits(c, l);
    if k == 0 {
      EvolvesReflexive(l.plant);
    } else {
      TriggersStep(c, l, env, ev, k - 1);
      var m := TriggerUpto(c, l, env, ev, k - 1);
      TriggerStep(c, m, env, ev, k - 1);
      EvolvesTransitive(l.plant, m.plant, TriggerUpto(c, l, env, ev, k).plant);
    }
  }

  lemma SoundFits(c: Config, l: Live)
    requires Sound(c, l)
    ensures c.Valid() && l.Fits(c) && l.plant.Valid()
  {
  }

  lemma {:induction false} GuardsStep(c: Config, l: Live, env: Env, ev: Event, k: nat)
    requires Sound(c, l) && k <= |c.rules|
    ensures Sound(c, GuardUpto(c, l, env, ev, k))
    ensures Evolves(l.plant, GuardUpto(c, l, env, ev, k).plant)
    ensures forall i :: 0 <= i < |c.rules| ==>
              GuardUpto(c, l, env, ev, k).hist[i].seen == l.hist[i].seen +
                if i < k && Trips(c, GuardUpto(c, l, env, ev, i), ev, i) then [Trip] else []
  {
    hide Sound, Evolves, GuardRule, Trips;
    SoundFits(c, l);
    if k == 0 {
      EvolvesReflexive(l.plant);
    } else {
      GuardsStep(c, l, env, ev, k - 1);
      var m := GuardUpto(c, l, env, ev, k - 1);
      GuardStep(c, m, env, ev, k - 1);
      EvolvesTransitive(l.plant, m.plant, GuardUpto(c, l, env, ev, k).plant);
    }
  }

  lemma HandleEventStep(c: Config, l: Live, env: Env, ev: Event)
    requires Sound(c, l)
    ensures Sound(c, HandleEvent(c, l, env, ev))
    ensures Evolves(l.plant, HandleEvent(c, l, env, ev).plant)
  {
    hide Sound, Evolves, TriggerUpto, GuardUpto;
    SoundFits(c, l);
    EvolvesReflexive(l.plant);
    if ev.kind == STATE_CHANGE {
      TriggersStep(c, l, env, ev, |c.rules|);
      var m := TriggerUpto(c, l, env, ev, |c.rules|);
      GuardsStep(c, m, env, ev, |c.rules|);
      EvolvesTransitive(l.plant, m.plant, GuardUpto(c, m, env, ev, |c.rules|).plant);
    }
  }

  // ---------------------------------------------------------------------------
  // A lost permission switches the output off
  // ---------------------------------------------------------------------------

  /** Whether commands to an output are allowed is as it was, and unless it may be `driven` so is its value. */
  ghost predicate Undriven(p: Plant, q: Plant, id: u16, driven: bool) {
    && q.Valid() && (q.Allows(id) <==> p.Allows(id))
    && (!driven ==> q.store.Read(id) == p.store.Read(id))
  }

  lemma UndrivenReflexive(p: Plant, id: u16, driven: bool)
    requires p.Valid()
    ensures Undriven(p, p, id, driven)
  {
  }

  lemma UndrivenTransitive(p: Plant, q: Plant, r: Plant, id: u16, a: bool, b: bool)
    requires Undriven(p, q, id, a) && Undriven(q, r, id, b)
    ensures Undriven(p, r, id, a || b)
  {
    hide Plant.Allows, Plant.Valid, Store.Read;
  }

  lemma CommandDrives(p: Plant, output: u16, v: i32, id: u16)
    requires p.Valid()
    ensures Undriven(p, p.Command(output, v), id, output == id)
  {
    hide Find;
    if p.Allows(output) {
      PutKeepsLookups(p, output, p.At(output).(lastApplied := Binary(v)), id);
    }
  }

  lemma CommandSets(p: Plant, output: u16, v: i32)
    requires p.Valid() && output < MAX_ENTRIES && p.Allows(output)
    ensures p.Command(output, v).store.Read(output) == Binary(v)
  {
    CommandWritesBinary(p, output, v, output);
    hide Find;
  }

  lemma PerformDrives(c: Config, l: Live, env: Env, i: nat, a: Action, id: u16)
    requires l.Fits(c) && i < |c.rules| && l.plant.Valid()
    ensures Undriven(l.plant, Perform(c, l, env, i, a).plant, id, c.rules[i].output == id)
  {
    hide Undriven, Plant.Command, Plant.Allows;
    UndrivenReflexive(l.plant, id, c.rules[i].output == id);
    CommandDrives(l.plant, c.rules[i].output, ActionValue(l.plant, c.rules[i], a), id);
  }

  lemma TriggerDrives(c: Config, l: Live, env: Env, ev: Event, i: nat, id: u16)
    requires c.Valid() && l.Fits(c) && i < |c.rules| && l.plant.Valid()
    ensures Undriven(l.plant, Trigger(c, l, env, ev, i).plant, id, c.rules[i].output == id)
  {
    hide Undriven, Perform, EvalRuntime, EvalAction, Permitted, MarkAction, Plant.Valid;
    UndrivenReflexive(l.plant, id, c.rules[i].output == id);
    var r, o := c.rules[i], Evaluated(c, l, env, ev, i);
    var d := l.diags[i].(lastTrigger := env.now, lastEval := env.now, condition := o.cond);
    var l1 := Observe(l, i, EvalRuntime(r, l.rts[i], c.tick, o.cond, o.permitted), o);
    PerformDrives(c, l1.(diags := l.diags[i := d]), env, i, EvalAction(r, l.rts[i], o.cond, o.permitted), id);
  }

  lemma GuardDrives(c: Config, l: Live, env: Env, ev: Event, i: nat, id: u16)
    requires c.Valid() && l.Fits(c) && i < |c.rules| && l.plant.Valid()
    ensures Undriven(l.plant, GuardRule(c, l, env, ev, i).plant, id, c.rules[i].output == id)
  {
    hide Undriven, Perform, TripRuntime, Trips, Plant.Valid;
    UndrivenReflexive(l.plant, id, c.rules[i].output == id);
    PerformDrives(c, Observe(l, i, TripRuntime(l.rts[i]), Trip), env, i, Branch(false), id);
  }

  /** One of the rules from `a` to `b` drives the output. */
  predicate DrivenBy(rules: seq<Rule>, a: nat, b: nat, id: u16) {
    exists j :: a <= j < b && j < |rules| && rules[j].output == id
  }

  lemma UndrivenValid(p: Plant, q: Plant, id: u16, driven: bool)
    requires Undriven(p, q, id, driven)
    ensures q.Valid()
  {
  }

  lemma UndrivenWiden(p: Plant, q: Plant, id: u16, a: bool, b: bool)
    requires Undriven(p, q, id, a) && (a ==> b)
    ensures Undriven(p, q, id, b)
  {
  }

  lemma {:induction false} TriggersDrive(c: Config, l: Live, env: Env, ev: Event, a: nat, b: nat, id: u16)
    requires c.Valid() && l.Fits(c) && a <= b <= |c.rules| && TriggerUpto(c, l, env, ev, a).plant.Valid()
    ensures Undriven(TriggerUpto(c, l, env, ev, a).plant, TriggerUpto(c, l, env, ev, b).plant, id,
            DrivenBy(c.rules, a, b, id))
    decreases b
  {
    hide Undriven, Trigger, Plant.Valid;
    var p := TriggerUpto(c, l, env, ev, a).plant;
    if a == b {
      UndrivenReflexive(p, id, false);
      UndrivenWiden(p, p, id, false, DrivenBy(c.rules, a, b, id));
    } else {
      var m := TriggerUpto(c, l, env, ev, b - 1);
      var here, before := c.rules[b - 1].output == id, DrivenBy(c.rules, a, b - 1, id);
      TriggersDrive(c, l, env, ev, a, b - 1, id);
      UndrivenValid(p, m.plant, id, before);
      TriggerDrives(c, m, env, ev, b - 1, id);
      UndrivenTransitive(p, m.plant, Trigger(c, m, env, ev, b - 1).plant, id, before, here);
      UndrivenWiden(p, Trigger(c, m, env, ev, b - 1).plant, id, before || here, DrivenBy(c.rules, a, b, id));
    }
  }

  lemma {:induction false} GuardsDrive(c: Config, l: Live, env: Env, ev: Event, a: nat, b: nat, id: u16)
    requires c.Valid() && l.Fits(c) && a <= b <= |c.rules| && GuardUpto(c, l, env, ev, a).plant.Valid()
    ensures Undriven(GuardUpto(c, l, env, ev, a).plant, GuardUpto(c, l, env, ev, b).plant, id,
            DrivenBy(c.rules, a, b, id))
    decreases b
  {
    hide Undriven, GuardRule, Plant.Valid;
    var p := GuardUpto(c, l, env, ev, a).plant;
    if a == b {
      UndrivenReflexive(p, id, false);
      UndrivenWiden(p, p, id, false, DrivenBy(c.rules, a, b, id));
    } else {
      var m := GuardUpto(c, l, env, ev, b - 1);
      var here, before := c.rules[b - 1].output == id, DrivenBy(c.rules, a, b - 1, id);
      GuardsDrive(c, l, env, ev, a, b - 1, id);
      UndrivenValid(p, m.plant, id, before);
      GuardDrives(c, m, env, ev, b - 1, id);
      UndrivenTransitive(p, m.plant, GuardRule(c, m, env, ev, b - 1).plant, id, before, here);
      UndrivenWiden(p, GuardRule(c, m, env, ev, b - 1).plant, id, before || here, DrivenBy(c.rules, a, b, id));
    }
  }

  /**
   * The turn of a rule whose permission is lost: a local output that may be driven and is on goes to its
   * false value.
   */
  lemma TripDrives(c: Config, l: Live, env: Env, ev: Event, i: nat)
    requires c.Valid() && l.Fits(c) && i < |c.rules| && l.plant.Valid() && Trips(c, l, ev, i)
    requires env.local(c.rules[i].output) && l.plant.Allows(c.rules[i].output) && c.rules[i].output < MAX_ENTRIES
    ensures GuardRule(c, l, env, ev, i).plant.store.Read(c.rules[i].output) == Binary(c.rules[i].onFalse)
  {
    hide Trips, TripRuntime, Find, Plant.Command, Plant.Allows, Plant.Valid, MarkAction;
    CommandSets(l.plant, c.rules[i].output, c.rules[i].onFalse);
  }

  /** The output of rule `i` is local, may be driven, and is no other rule's. */
  predicate Drives(c: Config, l: Live, env: Env, i: nat)
    requires i < |c.rules|
  {
    && env.local(c.rules[i].output) && l.plant.Allows(c.rules[i].output) && c.rules[i].output < MAX_ENTRIES
    && forall j :: 0 <= j < |c.rules| && j != i ==> c.rules[j].output != c.rules[i].output
  }

  /** The table as the guard finds it at the turn of rule `i`. */
  function AtTurn(c: Config, l: Live, env: Env, ev: Event, i: nat): (m: Live)
    requires c.Valid() && l.Fits(c) && i <= |c.rules|
    ensures m.Fits(c)
  {
    GuardUpto(c, TriggerUpto(c, l, env, ev, |c.rules|), env, ev, i)
  }

  /**
   * If the permission of a rule is lost when the guard comes to it, on an event about one of its
   * channels, then after the whole handler the output it drives is off, or at its false value if it
   * was on.
   */
  lemma GuardSwitchesOff(c: Config, l: Live, env: Env, ev: Event, i: nat)
    requires Sound(c, l) && i < |c.rules| && ev.kind == STATE_CHANGE && Drives(c, l, env, i)
    requires c.locks[i].Active() && Watches(c.locks[i], ev.source)
    requires !Permitted(AtTurn(c, l, env, ev, i).plant.store.values, c.locks[i])
    ensures var output := c.rules[i].output;
            HandleEvent(c, l, env, ev).plant.store.Read(output) ==
              if AtTurn(c, l, env, ev, i).plant.store.Read(output) == 0 then 0 else Binary(c.rules[i].onFalse)
  {
    var output, m := c.rules[i].output, TriggerUpto(c, l, env, ev, |c.rules|);
    var g, n := GuardUpto(c, m, env, ev, i), GuardUpto(c, m, env, ev, i + 1);
    SoundFits(c, l);
    hide Undriven, Sound, TriggerUpto, Plant.Allows, Permitted, Watches, Plant.Valid, Store.Read, Binary;
    assert !DrivenBy(c.rules, i + 1, |c.rules|, output);
    LoopsStart(c, l, env, ev);
    TriggersDrive(c, l, env, ev, 0, |c.rules|, output);
    UndrivenValid(l.plant, m.plant, output, DrivenBy(c.rules, 0, |c.rules|, output));
    GuardsDrive(c, m, env, ev, 0, i, output);
    UndrivenValid(m.plant, g.plant, output, DrivenBy(c.rules, 0, i, output));
    GuardDrives(c, g, env, ev, i, output);
    UndrivenValid(g.plant, n.plant, output, true);
    GuardsDrive(c, m, env, ev, i + 1, |c.rules|, output);
    assert g.plant.Allows(output) by {
      StillAllows(l.plant, m.plant, output, DrivenBy(c.rules, 0, |c.rules|, output));
      StillAllows(m.plant, g.plant, output, DrivenBy(c.rules, 0, i, output));
    }
    SameRead(n.plant, GuardUpto(c, m, env, ev, |c.rules|).plant, output);
    if Trips(c, g, ev, i) { TripDrives(c, g, env, ev, i); }
  }

  /** A permission depends on its channels only. */
  lemma SamePermission(p: Store, q: Store, k: Interlock)
    requires p.Valid() && q.Valid() && k.WellFormed()
    requires forall x :: 0 <= x < k.condCount ==> q.Read(k.conditions[x].channel) == p.Read(k.conditions[x].channel)
    ensures Permitted(q.values, k) == Permitted(p.values, k)
  {
    if k.Active() {
      assert q.Read(k.conditions[0].channel) == p.Read(k.conditions[0].channel);
      if k.condCount == 2 { assert q.Read(k.conditions[1].channel) == p.Read(k.conditions[1].channel); }
    }
  }

  /** No rule drives a channel of the interlock. */
  predicate FromOutside(c: Config, k: Interlock)
    requires k.WellFormed()
  {
    forall x :: 0 <= x < k.condCount ==> !DrivenBy(c.rules, 0, |c.rules|, k.conditions[x].channel)
  }

  /**
   * The continuous guard: after an event on a channel of a rule's interlock that finds the permission
   * gone, where no rule drives those channels, the output that this rule alone drives is off or at its
   * false value, whatever the event made this and every other rule do before.
   */
  lemma InterlockSwitchesOff(c: Config, l: Live, env: Env, ev: Event, i: nat)
    requires Sound(c, l) && i < |c.rules| && ev.kind == STATE_CHANGE && Drives(c, l, env, i)
    requires c.locks[i].Active() && Watches(c.locks[i], ev.source) && FromOutside(c, c.locks[i])
    requires !Permitted(l.plant.store.values, c.locks[i])
    ensures var output := c.rules[i].output;
            HandleEvent(c, l, env, ev).plant.store.Read(output) in {0, Binary(c.rules[i].onFalse)}
  {
    var k, m, g := c.locks[i], TriggerUpto(c, l, env, ev, |c.rules|), AtTurn(c, l, env, ev, i);
    SoundFits(c, l);
    hide Undriven, Sound, TriggerUpto, GuardUpto, Permitted, Watches, HandleEvent, Drives, Plant.Valid, Store.Read,
         Binary;
    LoopsStart(c, l, env, ev);
    TriggersDrive(c, l, env, ev, 0, |c.rules|, 0);
    UndrivenValid(l.plant, m.plant, 0, DrivenBy(c.rules, 0, |c.rules|, 0));
    LoopsStart(c, m, env, ev);
    GuardsDrive(c, m, env, ev, 0, i, 0);
    UndrivenValid(m.plant, g.plant, 0, DrivenBy(c.rules, 0, i, 0));
    forall x | 0 <= x < k.condCount
      ensures g.plant.store.Read(k.conditions[x].channel) == l.plant.store.Read(k.conditions[x].channel)
    {
      var id := k.conditions[x].channel;
      assert !DrivenBy(c.rules, 0, |c.rules|, id) && !DrivenBy(c.rules, 0, i, id);
      TriggersDrive(c, l, env, ev, 0, |c.rules|, id);
      SameRead(l.plant, m.plant, id);
      GuardsDrive(c, m, env, ev, 0, i, id);
      SameRead(m.plant, g.plant, id);
    }
    StoreValid(l.plant);
    StoreValid(g.plant);
    SamePermission(l.plant.store, g.plant.store, k);
    GuardSwitchesOff(c, l, env, ev, i);
  }

  lemma LoopsStart(c: Config, m: Live, env: Env, ev: Event)
    requires c.Valid() && m.Fits(c)
    ensures TriggerUpto(c, m, env, ev, 0) == m && GuardUpto(c, m, env, ev, 0) == m
  {
  }

  lemma StoreValid(p: Plant)
    requires p.Valid()
    ensures p.store.Valid()
  {
  }

  lemma StillAllows(p: Plant, q: Plant, id: u16, driven: bool)
    requires Undriven(p, q, id, driven)
    ensures q.Allows(id) <==> p.Allows(id)
  {
  }

  lemma SameRead(p: Plant, q: Plant, id: u16)
    requires Undriven(p, q, id, false)
    ensures q.store.Read(id) == p.store.Read(id)
  {
  }

  // ---------------------------------------------------------------------------
  // Dispatching events in order, within the budget
  // ---------------------------------------------------------------------------

  ghost predicate DeliversInOrder(b: Bus, d: Bus, budget: nat) {
    && d.Valid() && b.delivered <= d.delivered && b.accepted <= d.accepted
    && |d.delivered| <= |b.delivered| + budget
    && (|d.delivered| < |b.delivered| + budget ==> d.pending == [])
  }

  lemma TakeEventStep(c: Config, l: Live)
    requires Sound(c, l) && l.plant.store.bus.pending != []
    ensures Sound(c, l.(plant := TakeEvent(l.plant)))
    ensures LatchesHeld(l.plant, TakeEvent(l.plant))
  {
    TakeKeepsOrder(l.plant.store.bus);
    hide Find, Tracks;
  }

  lemma DeliversOneMore(b: Bus, d: Bus, e: Bus, budget: nat)
    requires b.Valid() && b.pending != [] && OnlyPublished(b.Take(), d) && DeliversInOrder(d, e, budget)
    ensures DeliversInOrder(b, e, budget + 1)
  {
  }

  /**
   * Dispatch delivers at most `budget` events even when the handler publishes more, stops early only
   * on an empty queue, delivers in the order accepted, and never disturbs a latched output.
   */
  lemma {:induction false} DispatchStep(c: Config, l: Live, env: Env, budget: nat)
    requires Sound(c, l)
    ensures Sound(c, DispatchEvents(c, l, env, budget))
    ensures LatchesHeld(l.plant, DispatchEvents(c, l, env, budget).plant)
    ensures DeliversInOrder(l.plant.store.bus, DispatchEvents(c, l, env, budget).plant.store.bus, budget)
    decreases budget
  {
    hide Sound, HandleEvent, Plant.Latched, Store.Read;
    SoundFits(c, l);
    if budget > 0 && l.plant.store.bus.pending != [] {
      var b := l.plant.store.bus;
      var l1 := l.(plant := TakeEvent(l.plant));
      TakeEventStep(c, l);
      SoundFits(c, l1);
      var l2 := HandleEvent(c, l1, env, b.pending[0]);
      HandleEventStep(c, l1, env, b.pending[0]);
      DispatchStep(c, l2, env, budget - 1);
      DeliversOneMore(b, l2.plant.store.bus, DispatchEvents(c, l2, env, budget - 1).plant.store.bus, budget - 1);
    }
  }

  // ---------------------------------------------------------------------------
  // The tick
  // ---------------------------------------------------------------------------

  lemma {:induction false} TicksStep(c: Config, l: Live, env: Env, k: nat)
    requires l.Fits(c) && l.plant.Valid() && k <= |c.rules|
    ensures Evolves(l.plant, TickUpto(c, l, env, k).plant)
    ensures forall i :: 0 <= i < |c.rules| ==>
              && TickUpto(c, l, env, k).rts[i] ==
                 (if i < k then TickRuntime(c.rules[i], l.rts[i], c.tick) else l.rts[i])
              && TickUpto(c, l, env, k).hist[i] ==
                   (if i < k then LogAfter(l.hist[i], Tick, TickAction(c.rules[i], l.rts[i], c.tick)) else l.hist[i])
  {
    hide Evolves, TickRuntime, TickAction, Dispatch, ActionValue;
    if k == 0 {
      EvolvesReflexive(l.plant);
    } else {
      TicksStep(c, l, env, k - 1);
      var m := TickUpto(c, l, env, k - 1);
      EvolvesValid(l.plant, m.plant);
      var m1 := Observe(m, k - 1, TickRuntime(c.rules[k - 1], m.rts[k - 1], c.tick), Tick);
      PerformEvolves(c, m1, env, k - 1, TickAction(c.rules[k - 1], m.rts[k - 1], c.tick));
      EvolvesTransitive(l.plant, m.plant, TickUpto(c, l, env, k).plant);
    }
  }

  /**
   * One tick: every rule records it, and the action each rule takes is the one its history calls for,
   * whatever the 32-bit clock reads.
   */
  lemma TickStep(w: World, env: Env)
    requires Sound(w.config, w.live)
    ensures Sound(TickAll(w, env).config, TickAll(w, env).live)
    ensures Evolves(w.live.plant, TickAll(w, env).live.plant)
    ensures forall i :: 0 <= i < |w.config.rules| ==>
              && TickAll(w, env).live.hist[i] ==
                   LogAfter(w.live.hist[i], Tick, TickAction(w.config.rules[i], w.live.rts[i], Add32(w.config.tick, 1)))
              && TickAction(w.config.rules[i], w.live.rts[i], Add32(w.config.tick, 1)) ==
                   Emitted(w.config.rules[i], w.live.hist[i].seen + [Tick])
  {
    hide Evolves, TickUpto, TickRuntime, TickAction, InStep, Abstract, Step, Act, Replay, Emitted, Doings, Plant.Valid;
    var c, l := w.config, w.live;
    var c1 := c.(tick := Add32(c.tick, 1));
    TicksStep(c1, l, env, |c.rules|);
    EvolvesValid(l.plant, TickUpto(c1, l, env, |c.rules|).plant);
    forall i | 0 <= i < |c.rules|
      ensures var a := TickAction(c.rules[i], l.rts[i], c1.tick);
              && Tracks(c.rules[i], TickRuntime(c.rules[i], l.rts[i], c1.tick), LogAfter(l.hist[i], Tick, a), c1.tick)
              && a == Emitted(c.rules[i], l.hist[i].seen + [Tick])
    {
      TickRefines(c.rules[i], l.rts[i], c.tick);
      ObservedTracks(c.rules[i], l.hist[i].seen, Tick);
    }
  }

  // ---------------------------------------------------------------------------
  // Whole runs
  // ---------------------------------------------------------------------------

  /** Everything the firmware may do to the engine, the plant and the flash, one call at a time. */
  datatype Op =
    | DispatchBus(env: Env, budget: nat)
    | TickMs(env: Env)
    | RemoteFrame(env: Env, cmd: RemoteCommand)
    | DrainRemote
    | AddARule(env: Env, saved: bool, request: Request)
    | RemoveARule(saved: bool, index: int)
    | SetALock(saved: bool, index: int, lock: Interlock)
    | ClearAll(saved: bool)
    | WriteState(id: u16, value: i32)
    | PublishEvent(event: Event)
    | RearmOutput(output: u16)
    | ChangePolicy(policy: Policy)
    | TriggerOne(output: u16, reason: u8)
    | TriggerEvery(reason: u8)
    | Reboot(plant: Plant)

  ghost predicate Possible(op: Op) {
    && (op.SetALock? ==> op.lock.WellFormed())
    && (op.Reboot? ==> op.plant.Valid())
  }

  function WithPlant(w: World, p: Plant): World {
    w.(live := w.live.(plant := p))
  }

  function Apply(w: World, sum: Checksum, op: Op): World
    requires w.Shaped() && Possible(op)
  {
    var p := w.live.plant;
    match op
    case DispatchBus(env, budget) => w.(live := DispatchEvents(w.config, w.live, env, budget))
    case TickMs(env) => TickAll(w, env)
    case RemoteFrame(env, cmd) => WithPlant(w, Receive(w.config.profile, p, env, cmd))
    case DrainRemote => w.(live := w.live.(remote := if w.live.remote == [] then [] else w.live.remote[1..]))
    case AddARule(env, saved, q) => AddRule(w, env, sum, saved, q)
    case RemoveARule(saved, k) => RemoveRule(w, sum, saved, k)
    case SetALock(saved, k, lock) => SetInterlock(w, sum, saved, k, lock)
    case ClearAll(saved) => ClearRules(w, sum, saved)
    case WriteState(id, v) => WithPlant(w, p.(store := p.store.Write(id, v)))
    case PublishEvent(e) => WithPlant(w, p.(store := p.store.(bus := p.store.bus.Publish(e))))
    case RearmOutput(output) => WithPlant(w, p.Rearm(output))
    case ChangePolicy(policy) => WithPlant(w, p.SetPolicy(policy))
    case TriggerOne(output, reason) => WithPlant(w, p.ApplyReason(output, reason))
    case TriggerEvery(reason) => WithPlant(w, p.SecureUpto(|p.guards|, reason))
    case Reboot(plant) => Boot(w.config.profile, sum, plant, w.config.hasQueue, w.flash)
  }

  /** What the flash holds can be loaded, and was a disciplined table when it was saved. */
  ghost predicate GoodFlash(p: Profile, sum: Checksum, b: Blob) {
    && Loadable(p, sum, b)
    && Disciplined(p, b.nodes[..b.count])
    && forall i :: 0 <= i < b.count ==> b.locks[i].WellFormed()
  }

  ghost predicate Inv(w: World, sum: Checksum) {
    && Sound(w.config, w.live)
    && Disciplined(w.config.profile, w.config.rules)
    && (Loadable(w.config.profile, sum, w.flash) ==> GoodFlash(w.config.profile, sum, w.flash))
  }

  lemma InvShaped(w: World, sum: Checksum)
    requires Inv(w, sum)
    ensures w.Shaped() && Sound(w.config, w.live) && w.live.plant.Valid()
  {
  }

  /** A fresh boot, over blank flash or a table this engine saved, satisfies the invariant. */
  lemma BootInv(p: Profile, sum: Checksum, plant: Plant, hasQueue: bool, flash: Blob)
    requires plant.Valid() && (Loadable(p, sum, flash) ==> GoodFlash(p, sum, flash))
    ensures Inv(Boot(p, sum, plant, hasQueue, flash), sum)
  {
  }

  lemma InstallInv(w: World, sum: Checksum, r: Rule)
    requires Inv(w, sum) && Disciplined(w.config.profile, w.config.rules + [r])
    ensures Inv(Install(w, r), sum)
  {
    var k := |w.config.rules|;
    assert RuleValid(w.config.profile, (w.config.rules + [r])[k]);
    hide Plant.Valid, Loadable, GoodFlash, Disciplined;
  }

  /** Removal moves a rule's runtime and history together with the rule. */
  lemma UninstallInv(w: World, sum: Checksum, k: nat)
    requires Inv(w, sum) && k < |w.config.rules|
    ensures Inv(Uninstall(w, k), sum)
  {
    RemovalKeepsDiscipline(w.config.profile, w.config.rules, k);
    hide Plant.Valid, Loadable, GoodFlash, Disciplined, Tracks;
  }

  /** Persisting leaves what the flash holds loadable. */
  lemma PersistInv(w: World, sum: Checksum, saved: bool)
    requires Inv(w, sum)
    ensures Inv(Persist(w, sum, saved), sum)
  {
    var b := MakeBlob(sum, w.config.rules, w.config.locks);
    PersistedTableLoads(w.config.profile, sum, w.config.rules, w.config.locks, w.live.plant, true);
    assert b.nodes[..b.count] == w.config.rules && b.locks[..b.count] == w.config.locks;
    hide Tracks, Plant.Valid;
  }

  lemma AddInv(w: World, sum: Checksum, env: Env, saved: bool, q: Request)
    requires Inv(w, sum)
    ensures Inv(AddRule(w, env, sum, saved, q), sum)
  {
    hide HandleEvent, Sound, Disciplined, Loadable, GoodFlash, AddVerdict, Plant.Valid;
    InvShaped(w, sum);
    if Verdict(w.config, q) == Ok {
      var r := q.Candidate();
      AcceptedIffDisciplined(w.config.profile, w.config.rules, r);
      InstallInv(w, sum, r);
      InvShaped(Install(w, r), sum);
      PersistInv(Install(w, r), sum, saved);
      var w1 := Persist(Install(w, r), sum, saved);
      if r.input < |w.live.plant.store.values| {
        HandleEventStep(w1.config, w1.live, env, Event(STATE_CHANGE, r.input, w.live.plant.store.values[r.input]));
      }
    }
  }

  lemma PlantInv(w: World, sum: Checksum, p: Plant)
    requires Inv(w, sum) && p.Valid()
    ensures Inv(WithPlant(w, p), sum)
  {
    hide Plant.Valid, Tracks, Loadable, GoodFlash, Disciplined;
  }

  /** Every step of every run keeps the invariant. */
  lemma ApplyInv(w: World, sum: Checksum, op: Op)
    requires Inv(w, sum) && Possible(op)
    ensures w.Shaped() && Inv(Apply(w, sum, op), sum)
  {
    hide Sound, Disciplined, Loadable, GoodFlash, TickAll, DispatchEvents, AddRule, Boot, Find, Plant.SecureUpto;
    InvShaped(w, sum);
    var p := w.live.plant;
    match op
    case DispatchBus(env, budget) => DispatchStep(w.config, w.live, env, budget);
    case TickMs(env) => TickStep(w, env); TickTable(w, env);
    case RemoteFrame(env, cmd) =>
      if Obeyed(w.config.profile, env, cmd) { CommandEvolves(p, cmd.output, cmd.value); }
      PlantInv(w, sum, Receive(w.config.profile, p, env, cmd));
    case DrainRemote => DrainInv(w, sum);
    case AddARule(env, saved, q) => AddInv(w, sum, env, saved, q);
    case RemoveARule(saved, k) =>
      if 0 <= k < |w.config.rules| { UninstallInv(w, sum, k); PersistInv(Uninstall(w, k), sum, saved); }
    case SetALock(saved, k, lock) =>
      if 0 <= k < |w.config.rules| {
        LockInv(w, sum, k, lock);
        PersistInv(w.(config := w.config.(locks := w.config.locks[k := lock])), sum, saved);
      }
    case ClearAll(saved) => ClearInv(w, sum, saved);
    case WriteState(id, v) => PlantInv(w, sum, p.(store := p.store.Write(id, v)));
    case PublishEvent(e) => PlantInv(w, sum, p.(store := p.store.(bus := p.store.bus.Publish(e))));
    case RearmOutput(output) => PlantInv(w, sum, p.Rearm(output));
    case ChangePolicy(policy) => PlantInv(w, sum, p.SetPolicy(policy));
    case TriggerOne(output, reason) => PlantInv(w, sum, p.ApplyReason(output, reason));
    case TriggerEvery(reason) =>
      SecureUptoValid(p, |p.guards|, reason);
      PlantInv(w, sum, p.SecureUpto(|p.guards|, reason));
    case Reboot(plant) => BootInv(w.config.profile, sum, plant, w.config.hasQueue, w.flash); BootProfile(w, sum, plant);
  }

  lemma TickTable(w: World, env: Env)
    requires w.Shaped()
    ensures TickAll(w, env).config == w.config.(tick := Add32(w.config.tick, 1)) && TickAll(w, env).flash == w.flash
  {
  }

  lemma BootProfile(w: World, sum: Checksum, plant: Plant)
    ensures Boot(w.config.profile, sum, plant, w.config.hasQueue, w.flash).config.profile == w.config.profile
  {
  }

  lemma DrainInv(w: World, sum: Checksum)
    requires Inv(w, sum)
    ensures forall q :: Inv(w.(live := w.live.(remote := q)), sum)
  {
    hide Plant.Valid, Tracks, Loadable, GoodFlash, Disciplined;
  }

  lemma LockInv(w: World, sum: Checksum, k: nat, lock: Interlock)
    requires Inv(w, sum) && k < |w.config.rules| && lock.WellFormed()
    ensures Inv(w.(config := w.config.(locks := w.config.locks[k := lock])), sum)
  {
    hide Plant.Valid, Tracks, Loadable, GoodFlash, Disciplined;
  }

  lemma ClearInv(w: World, sum: Checksum, saved: bool)
    requires Inv(w, sum)
    ensures Inv(ClearRules(w, sum, saved), sum)
  {
    PersistInv(w.(config := w.config.(rules := [], locks := []), live := w.live.(rts := [], diags := [], hist := [])),
      sum, saved);
  }

  ghost predicate AllPossible(ops: seq<Op>) {
    forall i :: 0 <= i < |ops| ==> Possible(ops[i])
  }

  ghost function Run(w: World, sum: Checksum, ops: seq<Op>): (v: World)
    requires Inv(w, sum) && AllPossible(ops)
    ensures Inv(v, sum)
    decreases |ops|
  {
    if ops == [] then w
    else
      ApplyInv(w, sum, ops[0]);
      Run(Apply(w, sum, ops[0]), sum, ops[1..])
  }

  // ---------------------------------------------------------------------------
  // The fail-safe latch over whole runs
  // ---------------------------------------------------------------------------

  /** Re-arming, or accepting a policy that is disabled or recovers by itself. */
  predicate Releases(op: Op, output: u16) {
    || op == RearmOutput(output)
    || (op.ChangePolicy? && op.policy.output == output && Plant.ValidPolicy(op.policy) &&
        !(op.policy.enabled && op.policy.recovery == MANUAL))
  }

  /** Another trigger for every output, or a write that does not pass the guard. */
  predicate Rewrites(op: Op, output: u16) {
    (op.TriggerEvery? && ValidReason(op.reason)) || (op.WriteState? && op.id == output)
  }

  /** Changing the entry of one output leaves every other output's latch alone. */
  lemma PutLatch(p: Plant, output: u16, e: Entry, other: u16)
    requires p.Known(output) && e.policy.output == output && p.Latched(other)
    ensures p.Put(output, e).Latched(other) <==> other != output || Blocks(e)
  {
    PutKeepsLookups(p, output, e, other);
    hide Find;
  }

  /** The plant calls other than commands: exactly which of them release a latch, or rewrite the value. */
  lemma PlantLatch(p: Plant, op: Op, output: u16)
    requires p.Valid() && p.Latched(output) && output < MAX_ENTRIES
    ensures op.RearmOutput? ==> (p.Rearm(op.output).Latched(output) <==> !Releases(op, output))
    ensures op.ChangePolicy? ==> (p.SetPolicy(op.policy).Latched(output) <==> !Releases(op, output))
    ensures op.TriggerOne? ==> p.ApplyReason(op.output, op.reason).Latched(output)
  {
    hide Find;
    match op
    case RearmOutput(o) =>
      if p.Known(o) { PutLatch(p, o, p.At(o).(active := false, lastReason := NONE), output); }
    case ChangePolicy(next) =>
      if p.Known(next.output) {
        var e := p.At(next.output).(policy := next.(safeValue := Binary(next.safeValue)));
        PutLatch(p, next.output, if next.enabled then e else e.(active := false, lastReason := NONE), output);
      }
    case TriggerOne(o, reason) =>
      if p.Known(o) { PutLatch(p, o, Plant.Triggered(p.At(o), reason, p.store.Read(o)), output); }
    case _ =>
  }

  lemma SecureLatch(p: Plant, reason: u8, output: u16)
    requires p.Valid() && p.Latched(output) && output < MAX_ENTRIES
    ensures p.SecureUpto(|p.guards|, reason).Latched(output)
    ensures !ValidReason(reason) ==> p.SecureUpto(|p.guards|, reason) == p
  {
    hide Plant.SecureUpto, Find;
    if ValidReason(reason) { ApplyAllSettles(p, reason, output); } else { NothingTriggers(p, |p.guards|, reason); }
  }

  /**
   * Exactly two calls release a latched output, re-arming it and accepting a disabled or automatic
   * policy for it, and exactly two kinds of call can change its value.
   */
  lemma LatchStep(w: World, sum: Checksum, op: Op, output: u16)
    requires Inv(w, sum) && Possible(op) && !op.Reboot?
    requires w.live.plant.Latched(output) && output < MAX_ENTRIES
    ensures w.Shaped()
    ensures Apply(w, sum, op).live.plant.Latched(output) <==> !Releases(op, output)
    ensures !Rewrites(op, output) ==> Apply(w, sum, op).live.plant.store.Read(output) == w.live.plant.store.Read(output)
  {
    hide Sound, Disciplined, Loadable, GoodFlash, TickAll, DispatchEvents, HandleEvent, Boot, Find, Plant.SecureUpto,
         Verdict, MakeBlob;
    InvShaped(w, sum);
    var p := w.live.plant;
    match op
    case DispatchBus(env, budget) => DispatchStep(w.config, w.live, env, budget);
    case TickMs(env) => TickStep(w, env);
    case RemoteFrame(env, cmd) => if Obeyed(w.config.profile, env, cmd) { CommandEvolves(p, cmd.output, cmd.value); }
    case AddARule(env, saved, q) => AddLatch(w, sum, env, saved, q);
    case WriteState(id, v) => WriteLatch(p, id, v, output);
    case RearmOutput(_) => PlantLatch(p, op, output);
    case ChangePolicy(_) => PlantLatch(p, op, output);
    case TriggerOne(_, _) => PlantLatch(p, op, output);
    case TriggerEvery(reason) => SecureLatch(p, reason, output);
    case _ =>
  }

  lemma WriteLatch(p: Plant, id: u16, v: i32, output: u16)
    requires p.Latched(output)
    ensures p.(store := p.store.Write(id, v)).Latched(output)
    ensures id != output ==> p.store.Write(id, v).Read(output) == p.store.Read(output)
  {
    hide Find;
  }

  lemma AddLatch(w: World, sum: Checksum, env: Env, saved: bool, q: Request)
    requires Inv(w, sum)
    ensures w.Shaped() && LatchesHeld(w.live.plant, AddRule(w, env, sum, saved, q).live.plant)
  {
    hide HandleEvent, Sound, Disciplined, Loadable, GoodFlash, AddVerdict, Plant.Latched, Store.Read;
    InvShaped(w, sum);
    if Verdict(w.config, q) == Ok {
      var r := q.Candidate();
      AcceptedIffDisciplined(w.config.profile, w.config.rules, r);
      InstallInv(w, sum, r);
      InvShaped(Install(w, r), sum);
      PersistInv(Install(w, r), sum, saved);
      var w1 := Persist(Install(w, r), sum, saved);
      if r.input < |w.live.plant.store.values| {
        HandleEventStep(w1.config, w1.live, env, Event(STATE_CHANGE, r.input, w.live.plant.store.values[r.input]));
      }
    }
  }

  ghost predicate Quiet(ops: seq<Op>, output: u16) {
    forall i :: 0 <= i < |ops| ==> !ops[i].Reboot? && !Releases(ops[i], output) && !Rewrites(ops[i], output)
  }

  /** A latched output keeps its value and its latch through every run without a release or a rewrite. */
  lemma {:induction false} LatchHolds(w: World, sum: Checksum, ops: seq<Op>, output: u16)
    requires Inv(w, sum) && AllPossible(ops)
    requires w.live.plant.Latched(output) && output < MAX_ENTRIES && Quiet(ops, output)
    ensures Run(w, sum, ops).live.plant.Latched(output)
    ensures Run(w, sum, ops).live.plant.store.Read(output) == w.live.plant.store.Read(output)
    decreases |ops|
  {
    hide Inv, Apply, Plant.Latched;
    if ops != [] {
      ApplyInv(w, sum, ops[0]);
      LatchStep(w, sum, ops[0], output);
      LatchHolds(Apply(w, sum, ops[0]), sum, ops[1..], output);
    }
  }

  /**
   * The fail-safe promise: once a trigger for every output has sent an enabled manual-recovery output
   * where its policy says for the reason, it stays there through any interleaving of events, ticks,
   * remote commands and edits.
   */
  lemma SafeValueStays(w: World, sum: Checksum, reason: u8, ops: seq<Op>, output: u16)
    requires Inv(w, sum) && AllPossible(ops) && ValidReason(reason) && output < MAX_ENTRIES && Quiet(ops, output)
    requires var p := w.live.plant; p.Known(output) && p.At(output).policy.enabled && Manual(p.At(output))
    ensures SendsTo(w.live.plant.At(output).policy, reason, w.live.plant.store.Read(output),
                    Run(w, sum, [TriggerEvery(reason)] + ops).live.plant.store.Read(output))
  {
    var all := [TriggerEvery(reason)] + ops;
    assert AllPossible(all) by { assert forall i :: 0 < i < |all| ==> all[i] == ops[i - 1]; }
    hide *;
    TriggerEveryStep(w, sum, reason, output);
    assert all[0] == TriggerEvery(reason) && all[1..] == ops;
    RunUnfolds(w, sum, all);
    LatchHolds(Apply(w, sum, all[0]), sum, ops, output);
  }

  lemma RunUnfolds(w: World, sum: Checksum, ops: seq<Op>)
    requires Inv(w, sum) && AllPossible(ops) && ops != []
    ensures w.Shaped() && Inv(Apply(w, sum, ops[0]), sum) && AllPossible(ops[1..])
    ensures Run(w, sum, ops) == Run(Apply(w, sum, ops[0]), sum, ops[1..])
  {
    hide Inv, Apply, World.Shaped;
    ApplyInv(w, sum, ops[0]);
  }

  lemma TriggerEveryStep(w: World, sum: Checksum, reason: u8, output: u16)
    requires Inv(w, sum) && ValidReason(reason) && output < MAX_ENTRIES
    requires var p := w.live.plant; p.Known(output) && p.At(output).policy.enabled && Manual(p.At(output))
    ensures w.Shaped() && Possible(TriggerEvery(reason)) && Inv(Apply(w, sum, TriggerEvery(reason)), sum)
    ensures var q := Apply(w, sum, TriggerEvery(reason)).live.plant;
            q.Latched(output) &&
            SendsTo(w.live.plant.At(output).policy, reason, w.live.plant.store.Read(output), q.store.Read(output))
  {
    hide Inv, Find, Plant.SecureUpto, Plant.At, SendsTo;
    ApplyInv(w, sum, TriggerEvery(reason));
    InvShaped(w, sum);
    ApplyAllSettles(w.live.plant, reason, output);
  }

  // ---------------------------------------------------------------------------
  // Timers in every reachable state
  // ---------------------------------------------------------------------------

  /**
   * Timer exactness across clock wrap, rule additions and removals: in every state of every run an
   * active timer's deadline is 1 to `duration` ticks ahead modulo 2^32, it was armed by an observation
   * that nothing disturbed since, and the ticks since then and the ticks left add up to `duration`.
   */
  lemma TimersExact(w: World, sum: Checksum, i: nat) returns (a: nat)
    requires Inv(w, sum) && i < |w.config.rules| && w.live.rts[i].timerActive
    ensures var ahead := Sub32(w.live.rts[i].deadline, w.config.tick);
            && 1 <= ahead <= w.config.rules[i].duration
            && a < |w.live.hist[i].seen| && Undisturbed(w.config.rules[i], w.live.hist[i].seen, a)
            && TicksAfter(w.live.hist[i].seen, a) + ahead == w.config.rules[i].duration
  {
    a := RunningWasArmed(w.config.rules[i], w.live.hist[i].seen);
  }

  /** The next tick drives the rule's timed branch exactly when its history says the timer is due. */
  lemma NextTickIsExact(w: World, sum: Checksum, env: Env, i: nat)
    requires Inv(w, sum) && i < |w.config.rules|
    ensures var r, h := w.config.rules[i], w.live.hist[i].seen + [Tick];
            var act := TickAction(r, w.live.rts[i], Add32(w.config.tick, 1));
            && (r.mode == ON_DELAY_MS ==> (act == Branch(true) <==> exists a: nat :: DueFrom(r, h, a)))
            && (r.mode == OFF_DELAY_MS ==> 
                  (act == Branch(false) <==> exists a: nat :: DueFrom(r, h, a) && NoTrueSince(h, a)))
            && (r.mode == PULSE_MS ==> (act == Branch(false) <==> exists a: nat :: DueFrom(r, h, a)))
            && (!IsTimed(r.mode) ==> act == Nothing)
  {
    var r, h := w.config.rules[i], w.live.hist[i].seen + [Tick];
    assert Tracks(r, w.live.rts[i], w.live.hist[i], w.config.tick) && RuleValid(w.config.profile, r);
    hide Sound, Disciplined, Loadable, GoodFlash, DueFrom, NoTrueSince, TickAction, Abstract;
    TickRefines(r, w.live.rts[i], w.config.tick);
    ObservedTracks(r, w.live.hist[i].seen, Tick);
    if r.mode == ON_DELAY_MS { OnDelayFilters(r, h); }
    else if r.mode == OFF_DELAY_MS { OffDelayFilters(r, h); }
    else if r.mode == PULSE_MS { PulseEndsExactly(r, h); }
    else { UntimedNeverRuns(r, w.live.hist[i].seen); }
  }

  /** In every state a pulse is active exactly while its timer is, so no pulse waits for nothing. */
  lemma PulsesAreTimed(w: World, sum: Checksum, i: nat)
    requires Inv(w, sum) && i < |w.config.rules| && w.config.rules[i].mode == PULSE_MS
    ensures w.live.rts[i].pulseActive == w.live.rts[i].timerActive
  {
  }

  /**
   * No pulse is left on, in any state of any run: once the duration has passed since a pulse last
   * started, the rule has driven its false branch after that start and within the duration, either at
   * the tick exactly the duration later or when its interlock tripped.
   */
  lemma PulsesEnd(w: World, sum: Checksum, i: nat, a: nat) returns (e: nat)
    requires Inv(w, sum) && i < |w.config.rules| && w.config.rules[i].mode == PULSE_MS
    requires var r, h := w.config.rules[i], w.live.hist[i].seen;
             a < |h| && Arms(r, h, a) && TicksAfter(h, a) >= r.duration && forall k :: a < k < |h| ==> !Arms(r, h, k)
    ensures var r, h := w.config.rules[i], w.live.hist[i].seen;
            && a < e < |h| && Doing(e + 1, Branch(false)) in w.live.hist[i].done
            && TicksAfter(h[..e + 1], a) <= r.duration && (h[e] == Trip || TicksAfter(h[..e + 1], a) == r.duration)
  {
    var r, g := w.config.rules[i], w.live.hist[i];
    assert Tracks(r, w.live.rts[i], g, w.config.tick) && RuleValid(w.config.profile, r);
    hide Sound, Disciplined, Loadable, GoodFlash, Emitted;
    e := NoPulseLeftOn(r, g.seen, a);
    DoingsAreEmitted(r, g.seen, Doing(e + 1, Branch(false)));
  }

  /** A trip is never silent: every one in a rule's history drove its false branch there and then. */
  lemma TripsSwitchOff(w: World, sum: Checksum, i: nat, k: nat)
    requires Inv(w, sum) && i < |w.config.rules| && k < |w.live.hist[i].seen| && w.live.hist[i].seen[k] == Trip
    ensures Doing(k + 1, Branch(false)) in w.live.hist[i].done
  {
    var r, g := w.config.rules[i], w.live.hist[i];
    assert Tracks(r, w.live.rts[i], g, w.config.tick);
    DoingsAreEmitted(r, g.seen, Doing(k + 1, Branch(false)));
    assert Last(g.seen[..k + 1]) == Trip;
    hide Doings, Replay, Step;
  }

  /**
   * The delay modes are filters, in any state of any run: whatever a timed rule did at a tick it did
   * because it was armed exactly its duration earlier and nothing intervened, and ON_DELAY drives its
   * true branch, and a pulse rule ends its pulse, at no other time than such a tick or a trip.
   */
  lemma DelaysFilter(w: World, sum: Checksum, i: nat, d: Doing)
    requires Inv(w, sum) && i < |w.config.rules| && d in w.live.hist[i].done
    ensures 0 < d.at <= |w.live.hist[i].seen|
    ensures var r, h := w.config.rules[i], w.live.hist[i].seen[..d.at];
            && (r.mode == ON_DELAY_MS && d.action == Branch(true) ==>
                  && Last(h) == Tick
                  && exists a: nat :: DueFrom(r, h, a) && h[a] == Eval(true, true) && NoFalseSince(h, a))
            && (r.mode == OFF_DELAY_MS && Last(h) == Tick ==>
                  d.action == Branch(false) && exists a: nat :: DueFrom(r, h, a) && NoTrueSince(h, a))
            && (r.mode == PULSE_MS && d.action == Branch(false) && Last(h) == Tick ==>
               exists a: nat :: DueFrom(r, h, a))
  {
    var r, g := w.config.rules[i], w.live.hist[i];
    assert Tracks(r, w.live.rts[i], g, w.config.tick) && RuleValid(w.config.profile, r);
    DoingsAreEmitted(r, g.seen, d);
    var h := g.seen[..d.at];
    hide Sound, Disciplined, Loadable, GoodFlash, DueFrom, NoTrueSince, NoFalseSince, Tracks, Doings;
    if r.mode == ON_DELAY_MS { OnDelayFilters(r, h); }
    else if r.mode == OFF_DELAY_MS && Last(h) == Tick { TickActions(r, h); OffDelayFilters(r, h); }
    else if r.mode == PULSE_MS && Last(h) == Tick { PulseEndsExactly(r, h); }
  }

  /** All an OFF_DELAY rule ever does at a tick is drive its false branch. */
  lemma TickActions(r: Rule, h: History)
    requires r.mode == OFF_DELAY_MS && h != [] && Last(h) == Tick
    ensures Emitted(r, h) == Nothing || Emitted(r, h) == Branch(false)
  {
  }

  // ---------------------------------------------------------------------------
  // Reboot
  // ---------------------------------------------------------------------------

  /** The rules with their interlocks. */
  datatype Table = Table(rules: seq<Rule>, locks: seq<Interlock>)

  function InUse(w: World): Table {
    Table(w.config.rules, w.config.locks)
  }

  /** The table that a reboot would load. */
  function Stored(w: World, sum: Checksum): Table {
    InUse(Boot(w.config.profile, sum, w.live.plant, w.config.hasQueue, w.flash))
  }

  lemma RebootLoads(w: World, sum: Checksum, plant: Plant)
    ensures InUse(Boot(w.config.profile, sum, plant, w.config.hasQueue, w.flash)) == Stored(w, sum)
    ensures Stored(Boot(w.config.profile, sum, plant, w.config.hasQueue, w.flash), sum) == Stored(w, sum)
  {
  }

  /** The operation edits the table, and so attempts to save it. */
  predicate Edits(w: World, op: Op) {
    match op
    case AddARule(_, _, q) => Verdict(w.config, q) == Ok
    case RemoveARule(_, k) => 0 <= k < |w.config.rules|
    case SetALock(_, k, _) => 0 <= k < |w.config.rules|
    case ClearAll(_) => true
    case _ => false
  }

  predicate Saves(w: World, op: Op) {
    Edits(w, op) && op.saved
  }

  /** A saved table is the one a reboot loads. */
  lemma SavedIsStored(w: World, sum: Checksum)
    requires Inv(w, sum) && w.flash == MakeBlob(sum, w.config.rules, w.config.locks)
    ensures Stored(w, sum) == InUse(w)
  {
    PersistedTableLoads(w.config.profile, sum, w.config.rules, w.config.locks, w.live.plant, w.config.hasQueue);
  }

  /** An operation writes its table to flash exactly when it is an edit whose save succeeds. */
  lemma StepWrites(w: World, sum: Checksum, op: Op)
    requires w.Shaped() && Possible(op)
    ensures var n := Apply(w, sum, op);
            && n.config.profile == w.config.profile && n.config.hasQueue == w.config.hasQueue
            && (if Saves(w, op)
                then |n.config.rules| <= MAX_RULES && n.flash == MakeBlob(sum, n.config.rules, n.config.locks)
                else n.flash == w.flash)
            && (!Edits(w, op) && !op.Reboot? ==> InUse(n) == InUse(w))
  {
    hide MakeBlob, Loadable, AddVerdict, HandleEvent, DispatchEvents, TickUpto, Plant.SecureUpto, Plant.Command;
  }

  /**
   * What a reboot would load changes only by an edit whose save succeeds, and is then the table in use;
   * so if it was the table in use before an edit, it still is if and only if the edit was saved or
   * changed nothing.
   */
  lemma StepStores(w: World, sum: Checksum, op: Op)
    requires Inv(w, sum) && Possible(op)
    ensures w.Shaped()
    ensures var n := Apply(w, sum, op);
            && Stored(n, sum) == (if Saves(w, op) then InUse(n) else Stored(w, sum))
            && (op.Reboot? ==> InUse(n) == Stored(w, sum))
            && (!Edits(w, op) && !op.Reboot? ==> InUse(n) == InUse(w))
            && (Stored(w, sum) == InUse(w) ==>
                  (Stored(n, sum) == InUse(n) <==> (Edits(w, op) && !op.saved ==> InUse(n) == InUse(w))))
  {
    InvShaped(w, sum);
    ApplyInv(w, sum, op);
    StepWrites(w, sum, op);
    var n := Apply(w, sum, op);
    if op.Reboot? { RebootLoads(w, sum, op.plant); assert InUse(n) == Stored(w, sum); }
    hide Inv, Apply, MakeBlob, Edits, Sound;
    if Saves(w, op) { SavedIsStored(n, sum); } else { SameFlashSameStore(w, n, sum); }
    hide Stored;
  }

  lemma SameFlashSameStore(w: World, n: World, sum: Checksum)
    requires n.flash == w.flash && n.config.profile == w.config.profile && n.config.hasQueue == w.config.hasQueue
    ensures Stored(n, sum) == Stored(w, sum)
  {
  }

  /** The table after the last saved edit of a run, or `kept` if it had none. */
  ghost function LastSaved(w: World, sum: Checksum, kept: Table, ops: seq<Op>): Table
    requires Inv(w, sum) && AllPossible(ops)
    decreases |ops|
  {
    if ops == [] then kept
    else
      ApplyInv(w, sum, ops[0]);
      var n := Apply(w, sum, ops[0]);
      LastSaved(n, sum, if Saves(w, ops[0]) then InUse(n) else kept, ops[1..])
  }

  /**
   * A reboot after any run, with saves failing at will, restores the table of the last saved edit, or
   * the one that was stored before the run; so it loses nothing if and only if that is the table in use.
   */
  lemma {:induction false} RebootRestoresTable(w: World, sum: Checksum, ops: seq<Op>, plant: Plant)
    requires Inv(w, sum) && AllPossible(ops)
    ensures var v := Run(w, sum, ops);
            var b := Boot(v.config.profile, sum, plant, v.config.hasQueue, v.flash);
            && InUse(b) == LastSaved(w, sum, Stored(w, sum), ops)
            && (InUse(b) == InUse(v) <==> LastSaved(w, sum, Stored(w, sum), ops) == InUse(v))
    decreases |ops|
  {
    hide Inv, Apply, Stored, Boot, Saves;
    if ops == [] {
      RebootLoads(w, sum, plant);
    } else {
      ApplyInv(w, sum, ops[0]);
      StepStores(w, sum, ops[0]);
      RebootRestoresTable(Apply(w, sum, ops[0]), sum, ops[1..], plant);
    }
  }

  /** Whether nothing is left unsaved after an operation, given whether that was so before it. */
  predicate SettledAfter(w: World, op: Op, settled: bool) {
    if Edits(w, op) then op.saved else settled || op.Reboot?
  }

  /** At the end of the run nothing is left unsaved: the last edit was saved, or a reboot undid it. */
  ghost predicate EndsSaved(w: World, sum: Checksum, ops: seq<Op>, settled: bool)
    requires Inv(w, sum) && AllPossible(ops)
    decreases |ops|
  {
    if ops == [] then settled
    else
      ApplyInv(w, sum, ops[0]);
      EndsSaved(Apply(w, sum, ops[0]), sum, ops[1..], SettledAfter(w, ops[0], settled))
  }

  lemma SettledStep(w: World, sum: Checksum, op: Op, settled: bool)
    requires Inv(w, sum) && Possible(op) && (settled ==> Stored(w, sum) == InUse(w))
    ensures w.Shaped()
    ensures SettledAfter(w, op, settled) ==> Stored(Apply(w, sum, op), sum) == InUse(Apply(w, sum, op))
  {
    StepStores(w, sum, op);
    hide Inv, Apply, Stored, Edits;
  }

  /** If the last edit of a run was saved, or undone by a reboot, a reboot restores the table in use. */
  lemma {:induction false} SavedRunLosesNothing(w: World, sum: Checksum, ops: seq<Op>, settled: bool, plant: Plant)
    requires Inv(w, sum) && AllPossible(ops) && (settled ==> Stored(w, sum) == InUse(w)) &&
             EndsSaved(w, sum, ops, settled)
    ensures var v := Run(w, sum, ops);
            InUse(Boot(v.config.profile, sum, plant, v.config.hasQueue, v.flash)) == InUse(v)
    decreases |ops|
  {
    hide Inv, Apply, Stored, Boot, SettledAfter;
    if ops == [] {
      RebootLoads(w, sum, plant);
    } else {
      ApplyInv(w, sum, ops[0]);
      SettledStep(w, sum, ops[0], settled);
      SavedRunLosesNothing(Apply(w, sum, ops[0]), sum, ops[1..], SettledAfter(w, ops[0], settled), plant);
    }
  }

  /** An accepted rule is at the end of the table. */
  lemma AddedRule(w: World, sum: Checksum, env: Env, saved: bool, q: Request)
    requires w.Shaped() && Verdict(w.config, q) == Ok
    ensures AddRule(w, env, sum, saved, q).config.rules == w.config.rules + [q.Candidate()]
    ensures q.Candidate() !in w.config.rules
  {
    hide HandleEvent, Conflicts, RuleValid, MakeBlob;
  }

  /** A rule that was accepted while the save failed is in the table, and gone after a reboot. */
  lemma UnsavedRuleIsLost(w: World, sum: Checksum, env: Env, q: Request, plant: Plant)
    requires Inv(w, sum) && Stored(w, sum) == InUse(w) && Verdict(w.config, q) == Ok && plant.Valid()
    ensures w.Shaped()
    ensures var n := Apply(w, sum, AddARule(env, false, q));
            && n.Shaped() && n.config.rules == w.config.rules + [q.Candidate()]
            && Apply(n, sum, Reboot(plant)).config.rules == w.config.rules
            && q.Candidate() !in w.config.rules
  {
    var op := AddARule(env, false, q);
    InvShaped(w, sum);
    AddedRule(w, sum, env, false, q);
    ApplyInv(w, sum, op);
    StepStores(w, sum, op);
    var n := Apply(w, sum, op);
    assert !Saves(w, op) && n.config.rules == w.config.rules + [q.Candidate()] by {
      hide AddRule, Verdict, Inv, Stored;
    }
    hide Inv, AddRule, Stored, Verdict;
    InvShaped(n, sum);
    RebootLoads(n, sum, plant);
    assert InUse(Apply(n, sum, Reboot(plant))) == Stored(n, sum) by { hide Boot; }
  }

  /** For instance the first rule ever added, on a device with one input and one output. */
  lemma FirstRuleIsLost(sum: Checksum, plant: Plant, env: Env)
    requires plant.Valid()
    ensures var flash := Blob(0, 0, 0, [], [], 0);
            var w := Boot(Profile({1}, {2}), sum, plant, true, flash);
            var q := Request(1, OP_GE, FOLLOW, 1, 0, 2, 1, 0);
            && w.Shaped()
            && var n := Apply(w, sum, AddARule(env, false, q));
               && n.Shaped() && n.config.rules == [Rule(1, 2, 1, OP_GE, FOLLOW, 0, 1, 0)]
               && Apply(n, sum, Reboot(plant)).config.rules == []
  {
    var p, flash := Profile({1}, {2}), Blob(0, 0, 0, [], [], 0);
    var w := Boot(p, sum, plant, true, flash);
    var q := Request(1, OP_GE, FOLLOW, 1, 0, 2, 1, 0);
    assert !Loadable(p, sum, flash) && w.config.rules == [] && w.config.profile == p;
    assert Verdict(w.config, q) == Ok;
    BootInv(p, sum, plant, true, flash);
    RebootLoads(w, sum, plant);
    hide Boot, Verdict, Inv, Loadable, Stored;
    UnsavedRuleIsLost(w, sum, env, q, plant);
    hide Apply;
  }
}
