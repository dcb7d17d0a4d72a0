/**
 * What one call of the automation engine does to the outputs, the table and the remote queue, told in
 * the values of the rules and commands themselves.
 */
module AutomationOutcomes {
  import opened Words
  import opened EventBus
  import opened StateStore
  import opened FailSafe
  import opened AutomationRules
  import opened RuleTimers
  import opened Automation
  import opened AutomationRuns

  // ---------------------------------------------------------------------------
  // One action on one output
  // ---------------------------------------------------------------------------

  /** An action of the rule takes its output from the value `before` to the value `after`. */
  predicate Sets(r: Rule, a: Action, before: i32, after: i32) {
    && (a == Nothing ==> after == before)
    && (a == Branch(true) ==> after == if r.onTrue == 0 then 0 else 1)
    && (a == Branch(false) ==> after == if r.onFalse == 0 then 0 else 1)
    && (a == Toggle ==> after == if before == 0 then 1 else 0)
    && (a == Force(true) ==> after == 1)
    && (a == Force(false) ==> after == 0)
  }

  lemma PerformSets(c: Config, l: Live, env: Env, i: nat, a: Action)
    requires l.Fits(c) && i < |c.rules| && l.plant.Valid()
    requires env.local(c.rules[i].output) && l.plant.Allows(c.rules[i].output) && c.rules[i].output < MAX_ENTRIES
    ensures var output := c.rules[i].output;
            Sets(c.rules[i], a, l.plant.store.Read(output), Perform(c, l, env, i, a).plant.store.Read(output))
  {
    hide Find, Plant.Command, Plant.Allows, Plant.Valid, MarkAction, Store.Read;
    CommandSets(l.plant, c.rules[i].output, ActionValue(l.plant, c.rules[i], a));
  }

  /** The turn of a rule in the first loop drives its output as its history and the evaluation ask. */
  lemma TriggerSets(c: Config, l: Live, env: Env, ev: Event, i: nat)
    requires Sound(c, l) && i < |c.rules| && c.rules[i].input == ev.source
    requires env.local(c.rules[i].output) && l.plant.Allows(c.rules[i].output) && c.rules[i].output < MAX_ENTRIES
    ensures c.Valid() && l.Fits(c)
    ensures var output, r := c.rules[i].output, c.rules[i];
            Sets(r, Emitted(r, l.hist[i].seen + [Evaluated(c, l, env, ev, i)]),
                 l.plant.store.Read(output), Trigger(c, l, env, ev, i).plant.store.Read(output))
  {
    TriggerStep(c, l, env, ev, i);
    hide Sets, Perform, EvalRuntime, EvalAction, Permitted, Emitted, MarkAction, Plant.Valid, Plant.Allows, Tracks,
         OnlyRule, Evolves;
    var r, o := c.rules[i], Evaluated(c, l, env, ev, i);
    var d := l.diags[i].(lastTrigger := env.now, lastEval := env.now, condition := o.cond);
    var l1 := Observe(l, i, EvalRuntime(r, l.rts[i], c.tick, o.cond, o.permitted), o).(diags := l.diags[i := d]);
    PerformSets(c, l1, env, i, EvalAction(r, l.rts[i], o.cond, o.permitted));
    BlockedSets(r, l.rts[i], c.tick, l.plant.store.Read(r.output));
  }

  lemma BlockedSets(r: Rule, rt: Runtime, tick: u32, v: i32)
    ensures EvalAction(r, rt, true, false) == Nothing && Sets(r, Nothing, v, v)
  {
    BlockedEvaluation(r, rt, tick, tick);
  }

  /** The value an action of the rule asks of an output that reads `before` here. */
  function Wanted(r: Rule, a: Action, before: i32): i32 {
    match a
    case Branch(truth) => if truth then r.onTrue else r.onFalse
    case Toggle => if before == 0 then 1 else 0
    case Force(on) => if on then 1 else 0
    case Nothing => before
  }

  /** The turn of a rule whose output another node owns sends that node the value, if it asks for one. */
  lemma TriggerSends(c: Config, l: Live, env: Env, ev: Event, i: nat)
    requires Sound(c, l) && i < |c.rules| && c.rules[i].input == ev.source && !env.local(c.rules[i].output)
    ensures c.Valid() && l.Fits(c)
    ensures var r, v := c.rules[i], Trigger(c, l, env, ev, i);
            var a := Emitted(r, l.hist[i].seen + [Evaluated(c, l, env, ev, i)]);
            var owner := env.owner(r.output);
            var sent := a != Nothing && env.selfNode != 0 && owner != 0 && !env.offline(owner) && c.hasQueue &&
                        |l.remote| < 16;
            && v.plant == l.plant
            && v.remote == l.remote +
                           if sent then [RemoteCommand(owner, env.selfNode, r.output,
                                                       Wanted(r, a, l.plant.store.Read(r.output)))] else []
  {
    TriggerStep(c, l, env, ev, i);
    hide EvalRuntime, EvalAction, Permitted, Emitted, Plant.Valid, Plant.Allows, Plant.Command, Tracks, OnlyRule,
         Evolves, Store.Read;
    var r, o := c.rules[i], Evaluated(c, l, env, ev, i);
    BlockedSets(r, l.rts[i], c.tick, 0);
  }

  // ---------------------------------------------------------------------------
  // A whole event
  // ---------------------------------------------------------------------------

  /** What rule `i` is to do when the first loop comes to it. */
  function Asked(c: Config, l: Live, env: Env, ev: Event, i: nat): Action
    requires c.Valid() && l.Fits(c) && i < |c.rules|
  {
    var r := c.rules[i];
    if r.input != ev.source then Nothing
    else
      var cond := EvalOp(r.op, env.scaled(ev.source, ev.data), r.threshold);
      var permitted := Permitted(TriggerUpto(c, l, env, ev, i).plant.store.values, c.locks[i]);
      Emitted(r, l.hist[i].seen + [Eval(cond, permitted)])
  }

  /** Nothing the first loop does before a rule's turn concerns the rule or the output it alone drives. */
  lemma BeforeTurn(c: Config, l: Live, env: Env, ev: Event, i: nat)
    requires Sound(c, l) && i < |c.rules| && Drives(c, l, env, i)
    ensures c.Valid() && l.Fits(c)
    ensures var m, output := TriggerUpto(c, l, env, ev, i), c.rules[i].output;
            && Sound(c, m) && m.hist[i].seen == l.hist[i].seen
            && m.plant.Allows(output) && m.plant.store.Read(output) == l.plant.store.Read(output)
  {
    var output, m := c.rules[i].output, TriggerUpto(c, l, env, ev, i);
    SoundFits(c, l);
    assert !DrivenBy(c.rules, 0, i, output);
    TriggersStep(c, l, env, ev, i);
    LoopsStart(c, l, env, ev);
    hide Sound, Evolves, Undriven, TriggerUpto, Plant.Allows, Plant.Valid, Store.Read;
    TriggersDrive(c, l, env, ev, 0, i, output);
    SameRead(l.plant, m.plant, output);
    StillAllows(l.plant, m.plant, output, false);
  }

  lemma TriggersValid(c: Config, l: Live, env: Env, ev: Event, k: nat)
    requires Sound(c, l) && k <= |c.rules|
    ensures c.Valid() && l.Fits(c) && TriggerUpto(c, l, env, ev, k).plant.Valid()
  {
    SoundFits(c, l);
    TriggersStep(c, l, env, ev, k);
    hide Sound, Evolves, TriggerUpto, Plant.Valid, Evaluated;
    SoundFits(c, TriggerUpto(c, l, env, ev, k));
  }

  lemma AfterTurn(c: Config, l: Live, env: Env, ev: Event, i: nat)
    requires Sound(c, l) && i < |c.rules| && Drives(c, l, env, i)
    ensures c.Valid() && l.Fits(c)
    ensures TriggerUpto(c, l, env, ev, |c.rules|).plant.store.Read(c.rules[i].output) ==
            TriggerUpto(c, l, env, ev, i + 1).plant.store.Read(c.rules[i].output)
  {
    var output, v := c.rules[i].output, TriggerUpto(c, l, env, ev, i + 1);
    SoundFits(c, l);
    assert !DrivenBy(c.rules, i + 1, |c.rules|, output);
    hide Sound, Drives, DrivenBy;
    TriggersValid(c, l, env, ev, i + 1);
    hide Undriven, TriggerUpto, Plant.Allows, Plant.Valid, Store.Read;
    TriggersDrive(c, l, env, ev, i + 1, |c.rules|, output);
    SameRead(v.plant, TriggerUpto(c, l, env, ev, |c.rules|).plant, output);
  }

  /** After the first loop the output of a rule that alone drives it reads what the rule asks. */
  lemma TriggersSet(c: Config, l: Live, env: Env, ev: Event, i: nat)
    requires Sound(c, l) && i < |c.rules| && Drives(c, l, env, i)
    ensures c.Valid() && l.Fits(c)
    ensures var output := c.rules[i].output;
            Sets(c.rules[i], Asked(c, l, env, ev, i), l.plant.store.Read(output),
                 TriggerUpto(c, l, env, ev, |c.rules|).plant.store.Read(output))
  {
    var r, m := c.rules[i], TriggerUpto(c, l, env, ev, i);
    SoundFits(c, l);
    BeforeTurn(c, l, env, ev, i);
    AfterTurn(c, l, env, ev, i);
    hide Sound, TriggerUpto, Plant.Allows, Store.Read, Trigger, Permitted, Emitted, Sets;
    TriggerNext(c, l, env, ev, i);
    if r.input == ev.source {
      TriggerSets(c, m, env, ev, i);
    } else {
      NothingSets(r, l.plant.store.Read(r.output));
    }
  }

  lemma NothingSets(r: Rule, v: i32)
    ensures Sets(r, Nothing, v, v)
  {
  }

  lemma TriggerNext(c: Config, l: Live, env: Env, ev: Event, i: nat)
    requires c.Valid() && l.Fits(c) && i < |c.rules|
    ensures TriggerUpto(c, l, env, ev, i + 1) == Trigger(c, TriggerUpto(c, l, env, ev, i), env, ev, i)
    ensures c.rules[i].input != ev.source ==> TriggerUpto(c, l, env, ev, i + 1) == TriggerUpto(c, l, env, ev, i)
  {
    hide Perform, EvalRuntime, EvalAction, Permitted, MarkAction;
  }

  /** The permission of rule `i` is gone when the guard comes to it, on an event about one of its channels. */
  predicate Gone(c: Config, l: Live, env: Env, ev: Event, i: nat)
    requires c.Valid() && l.Fits(c) && i < |c.rules|
  {
    && c.locks[i].enabled && c.locks[i].condCount != 0 && Watches(c.locks[i], ev.source)
    && !Permitted(AtTurn(c, l, env, ev, i).plant.store.values, c.locks[i])
  }

  /** Nothing the second loop does before a rule's turn concerns the output it alone drives. */
  lemma BeforeGuard(c: Config, l: Live, env: Env, ev: Event, i: nat)
    requires Sound(c, l) && i < |c.rules| && Drives(c, l, env, i)
    ensures c.Valid() && l.Fits(c) && AtTurn(c, l, env, ev, i).plant.Valid()
    ensures var output := c.rules[i].output;
            AtTurn(c, l, env, ev, i).plant.store.Read(output) ==
            TriggerUpto(c, l, env, ev, |c.rules|).plant.store.Read(output)
  {
    var output, m := c.rules[i].output, TriggerUpto(c, l, env, ev, |c.rules|);
    SoundFits(c, l);
    assert !DrivenBy(c.rules, 0, i, output);
    TriggersValid(c, l, env, ev, |c.rules|);
    hide Sound, Evolves, Undriven, TriggerUpto, GuardUpto, Plant.Valid, Store.Read;
    LoopsStart(c, m, env, ev);
    GuardsDrive(c, m, env, ev, 0, i, output);
    SameRead(m.plant, AtTurn(c, l, env, ev, i).plant, output);
    UndrivenValid(m.plant, AtTurn(c, l, env, ev, i).plant, output, false);
  }

  lemma GuardSpares(c: Config, l: Live, env: Env, ev: Event, i: nat)
    requires Sound(c, l) && i < |c.rules| && Drives(c, l, env, i) && ev.kind == STATE_CHANGE
    ensures c.Valid() && l.Fits(c)
    ensures !Gone(c, l, env, ev, i) ==> HandleEvent(c, l, env, ev).plant.store.Read(c.rules[i].output) ==
                                        TriggerUpto(c, l, env, ev, |c.rules|).plant.store.Read(c.rules[i].output)
  {
    var output, m, g := c.rules[i].output, TriggerUpto(c, l, env, ev, |c.rules|), AtTurn(c, l, env, ev, i);
    SoundFits(c, l);
    assert !DrivenBy(c.rules, i + 1, |c.rules|, output);
    BeforeGuard(c, l, env, ev, i);
    if !Gone(c, l, env, ev, i) {
      GuardNext(c, m, env, ev, i);
      hide Sound, Drives, Gone, Undriven, TriggerUpto, GuardUpto, Plant.Valid, Store.Read, GuardRule;
      GuardsDrive(c, m, env, ev, i + 1, |c.rules|, output);
      SameRead(g.plant, GuardUpto(c, m, env, ev, |c.rules|).plant, output);
    }
  }

  lemma GuardNext(c: Config, m: Live, env: Env, ev: Event, i: nat)
    requires c.Valid() && m.Fits(c) && i < |c.rules|
    ensures var g := GuardUpto(c, m, env, ev, i);
            (c.locks[i].enabled && c.locks[i].condCount != 0 && Watches(c.locks[i], ev.source) &&
             !Permitted(g.plant.store.values, c.locks[i])) || GuardUpto(c, m, env, ev, i + 1) == g
  {
    hide Perform, Permitted, Watches, TripRuntime;
  }

  /**
   * A state change and the output that rule `i` alone drives: the first loop takes it where the rule's
   * history and this evaluation ask, and the guard then takes it to the false value exactly if it is on
   * and the permission is gone.
   */
  lemma EventSets(c: Config, l: Live, env: Env, ev: Event, i: nat)
    requires Sound(c, l) && i < |c.rules| && Drives(c, l, env, i) && ev.kind == STATE_CHANGE
    ensures c.Valid() && l.Fits(c)
    ensures var r := c.rules[i];
            var asked := TriggerUpto(c, l, env, ev, |c.rules|).plant.store.Read(r.output);
            && Sets(r, Asked(c, l, env, ev, i), l.plant.store.Read(r.output), asked)
            && HandleEvent(c, l, env, ev).plant.store.Read(r.output) ==
               if asked != 0 && Gone(c, l, env, ev, i) then (if r.onFalse == 0 then 0 else 1) else asked
  {
    SoundFits(c, l);
    TriggersSet(c, l, env, ev, i);
    BeforeGuard(c, l, env, ev, i);
    GuardSpares(c, l, env, ev, i);
    if Gone(c, l, env, ev, i) { GuardSwitchesOff(c, l, env, ev, i); }
    hide Sound, Drives, Sets, Asked, Gone, AtTurn, HandleEvent, TriggerUpto, Store.Read;
  }

  /**
   * What a rule without an interlock makes of a state change of its input, mode by mode, when it alone
   * drives a local output that may be driven.
   */
  lemma RuleSets(c: Config, l: Live, env: Env, ev: Event, i: nat)
    requires Sound(c, l) && i < |c.rules| && Drives(c, l, env, i) && ev.kind == STATE_CHANGE
    requires c.rules[i].input == ev.source && !(c.locks[i].enabled && c.locks[i].condCount != 0)
    ensures c.Valid() && l.Fits(c)
    ensures var r, v := c.rules[i], env.scaled(ev.source, ev.data);
            var before := l.plant.store.Read(r.output);
            var after := HandleEvent(c, l, env, ev).plant.store.Read(r.output);
            var onTrue, onFalse := if r.onTrue == 0 then 0 else 1, if r.onFalse == 0 then 0 else 1;
            var truth := (r.op == OP_GT && v > r.threshold) || (r.op == OP_GE && v >= r.threshold) ||
                         (r.op == OP_EQ && v == r.threshold) || (r.op == OP_NE && v != r.threshold) ||
                         (r.op == OP_LE && v <= r.threshold) || (r.op == OP_LT && v < r.threshold);
            var rising := truth && !LastCondition(l.hist[i].seen);
            && (r.mode == FOLLOW ==> after == if truth then onTrue else onFalse)
            && (r.mode == ON_DELAY_MS ==> after == onFalse)
            && (r.mode == OFF_DELAY_MS ==> after == if truth then onTrue else before)
            && (r.mode == PULSE_MS ==> after == if rising then onTrue else before)
            && (r.mode == TOGGLE ==> after == if rising then (if before == 0 then 1 else 0) else before)
            && (r.mode == MODE_FORCE_ON ==> after == if rising then 1 else before)
            && (r.mode == MODE_FORCE_OFF ==> after == if rising then 0 else before)
  {
    var r := c.rules[i];
    var cond := EvalOp(r.op, env.scaled(ev.source, ev.data), r.threshold);
    SoundFits(c, l);
    EventSets(c, l, env, ev, i);
    EvaluationEmits(r, l.hist[i].seen, cond, true);
    hide Sound, Drives, AtTurn, HandleEvent, TriggerUpto, Store.Read, Emitted, LastCondition;
  }

  // ---------------------------------------------------------------------------
  // Two opposite forces on one output
  // ---------------------------------------------------------------------------

  predicate Unlocked(k: Interlock) {
    !k.enabled || k.condCount == 0
  }

  /** The second loop leaves an output alone if no rule that drives it has an interlock. */
  lemma {:induction false} GuardsSpare(c: Config, m: Live, env: Env, ev: Event, k: nat, id: u16)
    requires c.Valid() && m.Fits(c) && m.plant.Valid() && k <= |c.rules|
    requires forall x :: 0 <= x < |c.rules| && c.rules[x].output == id ==> Unlocked(c.locks[x])
    ensures Undriven(m.plant, GuardUpto(c, m, env, ev, k).plant, id, false)
  {
    hide Undriven, GuardRule, Plant.Valid, Unlocked;
    LoopsStart(c, m, env, ev);
    if k == 0 {
      UndrivenReflexive(m.plant, id, false);
    } else {
      GuardsSpare(c, m, env, ev, k - 1, id);
      var g := GuardUpto(c, m, env, ev, k - 1);
      UndrivenValid(m.plant, g.plant, id, false);
      GuardSparesUnlocked(c, g, env, ev, k - 1);
      GuardDrives(c, g, env, ev, k - 1, id);
      if c.rules[k - 1].output == id { UndrivenReflexive(g.plant, id, false); }
      UndrivenTransitive(m.plant, g.plant, GuardRule(c, g, env, ev, k - 1).plant, id, false, false);
    }
  }

  lemma GuardSparesUnlocked(c: Config, l: Live, env: Env, ev: Event, i: nat)
    requires c.Valid() && l.Fits(c) && i < |c.rules|
    ensures Unlocked(c.locks[i]) ==> GuardRule(c, l, env, ev, i) == l
  {
    hide Perform, Permitted, Watches, TripRuntime;
  }

  /** The rules on the output are `i` and `j`, neither has an interlock, and the output is local and may be driven. */
  predicate Share(c: Config, l: Live, env: Env, i: nat, j: nat)
    requires i < j < |c.rules| == |c.locks|
  {
    var output := c.rules[i].output;
    && c.rules[j].output == output && Unlocked(c.locks[i]) && Unlocked(c.locks[j])
    && env.local(output) && l.plant.Allows(output) && output < MAX_ENTRIES
    && forall k :: 0 <= k < |c.rules| && k != i && k != j ==> c.rules[k].output != output
  }

  /** The event is about the rule's input, and its condition is newly true. */
  predicate Rises(r: Rule, h: History, env: Env, ev: Event) {
    r.input == ev.source && EvalOp(r.op, env.scaled(ev.source, ev.data), r.threshold) && !LastCondition(h)
  }

  /** The turn of a force rule without an interlock: the output is forced if its condition rises, and else stays. */
  lemma ForceTurn(c: Config, l: Live, env: Env, ev: Event, i: nat)
    requires Sound(c, l) && i < |c.rules| && IsForce(c.rules[i].mode)
    ensures c.Valid() && l.Fits(c)
    ensures Unlocked(c.locks[i]) && env.local(c.rules[i].output) && l.plant.Allows(c.rules[i].output) &&
            c.rules[i].output < MAX_ENTRIES ==>
              Trigger(c, l, env, ev, i).plant.store.Read(c.rules[i].output) ==
                if Rises(c.rules[i], l.hist[i].seen, env, ev) then (if c.rules[i].mode == MODE_FORCE_ON then 1 else 0)
                else l.plant.store.Read(c.rules[i].output)
  {
    var r := c.rules[i];
    SoundFits(c, l);
    if r.input == ev.source && Unlocked(c.locks[i]) && env.local(r.output) && l.plant.Allows(r.output) &&
       r.output < MAX_ENTRIES {
      TriggerSets(c, l, env, ev, i);
      EvaluationEmits(r, l.hist[i].seen, EvalOp(r.op, env.scaled(ev.source, ev.data), r.threshold), true);
    }
    hide Sound, Emitted, Store.Read, Plant.Allows, LastCondition, EvalOp, Perform, EvalRuntime, EvalAction;
  }

  /** What the loop finds at the turn of rule `k`, of an output that no rule from `a` up to it drives. */
  lemma ForcesBefore(c: Config, l: Live, env: Env, ev: Event, a: nat, k: nat, output: u16)
    requires Sound(c, l) && a <= k <= |c.rules| && !DrivenBy(c.rules, a, k, output)
    ensures c.Valid() && l.Fits(c)
    ensures var m, n := TriggerUpto(c, l, env, ev, a), TriggerUpto(c, l, env, ev, k);
            && Sound(c, n) && (k < |c.rules| ==> n.hist[k].seen == l.hist[k].seen)
            && n.plant.store.Read(output) == m.plant.store.Read(output)
            && (n.plant.Allows(output) <==> l.plant.Allows(output))
  {
    SoundFits(c, l);
    TriggersStep(c, l, env, ev, k);
    hide Sound, Evolves, Undriven, TriggerUpto, Plant.Allows, Plant.Valid, Store.Read, Evaluated;
    LoopsStart(c, l, env, ev);
    TriggersValid(c, l, env, ev, a);
    TriggersDrive(c, l, env, ev, a, k, output);
    SameRead(TriggerUpto(c, l, env, ev, a).plant, TriggerUpto(c, l, env, ev, k).plant, output);
    TriggersDrive(c, l, env, ev, 0, k, output);
    StillAllows(l.plant, TriggerUpto(c, l, env, ev, k).plant, output, DrivenBy(c.rules, 0, k, output));
  }

  /** What a force rule does to the output by the end of its turn, when no rule from `a` up to it drives it. */
  lemma ForceSets(c: Config, l: Live, env: Env, ev: Event, a: nat, k: nat)
    requires Sound(c, l) && a <= k < |c.rules| && IsForce(c.rules[k].mode)
    requires !DrivenBy(c.rules, a, k, c.rules[k].output)
    requires |c.locks| == |c.rules| && Unlocked(c.locks[k]) && env.local(c.rules[k].output)
    requires l.plant.Allows(c.rules[k].output) && c.rules[k].output < MAX_ENTRIES
    ensures c.Valid() && l.Fits(c)
    ensures var output := c.rules[k].output;
            TriggerUpto(c, l, env, ev, k + 1).plant.store.Read(output) ==
              if Rises(c.rules[k], l.hist[k].seen, env, ev) then (if c.rules[k].mode == MODE_FORCE_ON then 1 else 0)
              else TriggerUpto(c, l, env, ev, a).plant.store.Read(output)
  {
    SoundFits(c, l);
    hide Sound, TriggerUpto, Plant.Allows, Store.Read, Trigger, Rises, DrivenBy, Unlocked;
    ForcesBefore(c, l, env, ev, a, k, c.rules[k].output);
    ForceTurn(c, TriggerUpto(c, l, env, ev, k), env, ev, k);
    TriggerNext(c, l, env, ev, k);
  }

  /** The second loop leaves the value that the first one left, if no rule that drives the output has an interlock. */
  lemma UnlockedStays(c: Config, l: Live, env: Env, ev: Event, output: u16)
    requires Sound(c, l) && ev.kind == STATE_CHANGE && |c.locks| == |c.rules|
    requires forall x :: 0 <= x < |c.rules| && c.rules[x].output == output ==> Unlocked(c.locks[x])
    ensures c.Valid() && l.Fits(c)
    ensures HandleEvent(c, l, env, ev).plant.store.Read(output) ==
            TriggerUpto(c, l, env, ev, |c.rules|).plant.store.Read(output)
  {
    TriggersValid(c, l, env, ev, |c.rules|);
    hide Sound, TriggerUpto, GuardUpto, Plant.Valid, Store.Read, Undriven, Unlocked;
    var m := TriggerUpto(c, l, env, ev, |c.rules|);
    GuardsSpare(c, m, env, ev, |c.rules|, output);
    SameRead(m.plant, GuardUpto(c, m, env, ev, |c.rules|).plant, output);
  }

  /**
   * The one way two rules may share an output: after a state change the later of two opposite forces whose
   * condition rose has its way, and the output stays if neither did.
   */
  lemma ForcePairSets(c: Config, l: Live, env: Env, ev: Event, i: nat, j: nat)
    requires Sound(c, l) && i < j < |c.rules| && ev.kind == STATE_CHANGE
    requires |c.locks| == |c.rules| && Share(c, l, env, i, j) && IsForce(c.rules[i].mode) && IsForce(c.rules[j].mode)
    ensures c.Valid() && l.Fits(c)
    ensures var first, second := c.rules[i], c.rules[j];
            HandleEvent(c, l, env, ev).plant.store.Read(first.output) ==
              if Rises(second, l.hist[j].seen, env, ev) then (if second.mode == MODE_FORCE_ON then 1 else 0)
              else if Rises(first, l.hist[i].seen, env, ev) then (if first.mode == MODE_FORCE_ON then 1 else 0)
              else l.plant.store.Read(first.output)
  {
    hide *;
    var output, n := c.rules[i].output, |c.rules|;
    SoundFits(c, l);
    LoopsStart(c, l, env, ev);
    ShareMeans(c, l, env, i, j);
    ForceSets(c, l, env, ev, 0, i);
    ForceSets(c, l, env, ev, i + 1, j);
    ForcesBefore(c, l, env, ev, j + 1, n, output);
    UnlockedStays(c, l, env, ev, output);
  }

  lemma ShareMeans(c: Config, l: Live, env: Env, i: nat, j: nat)
    requires i < j < |c.rules| == |c.locks| && Share(c, l, env, i, j)
    ensures var output, n := c.rules[i].output, |c.rules|;
            && !DrivenBy(c.rules, 0, i, output) && !DrivenBy(c.rules, i + 1, j, output)
            && !DrivenBy(c.rules, j + 1, n, output) && c.rules[j].output == output
            && (forall x :: 0 <= x < n && c.rules[x].output == output ==> Unlocked(c.locks[x]))
            && Unlocked(c.locks[i]) && Unlocked(c.locks[j])
            && env.local(output) && l.plant.Allows(output) && output < MAX_ENTRIES
  {
    hide Unlocked, Plant.Allows;
  }

  // ---------------------------------------------------------------------------
  // Dispatching
  // ---------------------------------------------------------------------------

  /** Dispatching with one budget and then another is dispatching with their sum. */
  lemma {:induction false} DispatchesAdd(c: Config, l: Live, env: Env, a: nat, b: nat)
    requires c.Valid() && l.Fits(c)
    ensures DispatchEvents(c, l, env, a + b) == DispatchEvents(c, DispatchEvents(c, l, env, a), env, b)
    decreases a
  {
    hide HandleEvent;
    if a > 0 && l.plant.store.bus.pending != [] {
      var l1 := l.(plant := TakeEvent(l.plant));
      DispatchesAdd(c, HandleEvent(c, l1, env, l.plant.store.bus.pending[0]), env, a - 1, b);
    }
  }

  /**
   * Dispatching delivers: the oldest pending state change is taken off the bus and has a FOLLOW rule on its
   * source, without an interlock, drive its output by the comparison; an event of another kind is only
   * taken off.
   */
  lemma DispatchActs(w: World, sum: Checksum, env: Env, i: nat)
    requires Inv(w, sum) && i < |w.config.rules| && Drives(w.config, w.live, env, i)
    requires w.live.plant.store.bus.pending != []
    ensures w.Shaped()
    ensures var r, ev := w.config.rules[i], w.live.plant.store.bus.pending[0];
            var n := Apply(w, sum, DispatchBus(env, 1));
            && n.config == w.config
            && (ev.kind != STATE_CHANGE ==> n.live == w.live.(plant := TakeEvent(w.live.plant)))
            && (ev.kind == STATE_CHANGE && r.input == ev.source && r.mode == FOLLOW &&
                !(w.config.locks[i].enabled && w.config.locks[i].condCount != 0) ==>
                  n.live.plant.store.Read(r.output) ==
                    if EvalOp(r.op, env.scaled(ev.source, ev.data), r.threshold) then r.onTrue else r.onFalse)
  {
    var c, l := w.config, w.live;
    assert RuleValid(c.profile, c.rules[i]);
    InvShaped(w, sum);
    var ev, l1 := l.plant.store.bus.pending[0], l.(plant := TakeEvent(l.plant));
    TakeEventStep(c, l);
    OneEvent(c, l, env);
    assert Drives(c, l1, env, i) by { hide Find; }
    hide Inv, Sound, Drives, HandleEvent, DispatchEvents, Store.Read, TakeEvent;
    if ev.kind == STATE_CHANGE && c.rules[i].input == ev.source &&
       !(c.locks[i].enabled && c.locks[i].condCount != 0) {
      RuleSets(c, l1, env, ev, i);
    }
  }

  lemma OneEvent(c: Config, l: Live, env: Env)
    requires c.Valid() && l.Fits(c) && l.plant.store.bus.pending != []
    ensures var l1, ev := l.(plant := TakeEvent(l.plant)), l.plant.store.bus.pending[0];
            && DispatchEvents(c, l, env, 1) == HandleEvent(c, l1, env, ev)
            && (ev.kind != STATE_CHANGE ==> HandleEvent(c, l1, env, ev) == l1)
  {
    hide TriggerUpto, GuardUpto;
  }

  /**
   * What the diagnostics say after an evaluation: when it was, what the condition was, and if the interlock
   * blocked it, that and the value withheld. Rules on other inputs are not evaluated.
   */
  lemma EvaluationShows(c: Config, l: Live, env: Env, ev: Event, i: nat)
    requires c.Valid() && l.Fits(c) && i < |c.rules| && l.plant.Valid()
    ensures var r, d := c.rules[i], Trigger(c, l, env, ev, i).diags[i];
            var cond := EvalOp(r.op, env.scaled(ev.source, ev.data), r.threshold);
            if r.input != ev.source then Trigger(c, l, env, ev, i) == l
            else
              && d.lastTrigger == d.lastEval == env.now && d.condition == cond
              && (cond && !Permitted(l.plant.store.values, c.locks[i]) ==>
                    && Trigger(c, l, env, ev, i).plant == l.plant && Trigger(c, l, env, ev, i).remote == l.remote
                    && d.outcome == BlockedFailSafe && d.lastAction == env.now && d.value == (r.onTrue != 0)
                    && d.local == env.local(r.output) && d.owner == env.owner(r.output))
  {
    hide Permitted, EvalRuntime, EvalAction, Plant.Command, DispatchOutcome, ActionValue;
  }

  // ---------------------------------------------------------------------------
  // A tick
  // ---------------------------------------------------------------------------

  lemma TickDrives(c: Config, l: Live, env: Env, i: nat, id: u16)
    requires l.Fits(c) && i < |c.rules| && l.plant.Valid()
    ensures Undriven(l.plant, TickRule(c, l, env, i).plant, id, c.rules[i].output == id)
  {
    hide Undriven, Perform, TickRuntime, TickAction, Plant.Valid;
    var l1 := Observe(l, i, TickRuntime(c.rules[i], l.rts[i], c.tick), Tick);
    PerformDrives(c, l1, env, i, TickAction(c.rules[i], l.rts[i], c.tick), id);
  }

  lemma {:induction false} TicksDrive(c: Config, l: Live, env: Env, a: nat, b: nat, id: u16)
    requires l.Fits(c) && a <= b <= |c.rules| && TickUpto(c, l, env, a).plant.Valid()
    ensures Undriven(TickUpto(c, l, env, a).plant, TickUpto(c, l, env, b).plant, id, DrivenBy(c.rules, a, b, id))
    decreases b
  {
    hide Undriven, TickRule, Plant.Valid;
    var p := TickUpto(c, l, env, a).plant;
    if a == b {
      UndrivenReflexive(p, id, false);
      UndrivenWiden(p, p, id, false, DrivenBy(c.rules, a, b, id));
    } else {
      var m := TickUpto(c, l, env, b - 1);
      var here, before := c.rules[b - 1].output == id, DrivenBy(c.rules, a, b - 1, id);
      TicksDrive(c, l, env, a, b - 1, id);
      UndrivenValid(p, m.plant, id, before);
      TickDrives(c, m, env, b - 1, id);
      UndrivenTransitive(p, m.plant, TickRule(c, m, env, b - 1).plant, id, before, here);
      UndrivenWiden(p, TickRule(c, m, env, b - 1).plant, id, before || here, DrivenBy(c.rules, a, b, id));
    }
  }

  lemma TickTurn(c: Config, l: Live, env: Env, i: nat)
    requires l.Fits(c) && i < |c.rules| && Drives(c, l, env, i) && l.plant.Valid()
    ensures var r := c.rules[i];
            Sets(r, TickAction(r, l.rts[i], c.tick), l.plant.store.Read(r.output),
                 TickUpto(c, l, env, i + 1).plant.store.Read(r.output))
  {
    var r, m := c.rules[i], TickUpto(c, l, env, i);
    assert !DrivenBy(c.rules, 0, i, r.output);
    TicksStep(c, l, env, i);
    EvolvesValid(l.plant, m.plant);
    hide Undriven, Evolves, Plant.Valid, Plant.Allows, Store.Read, Perform, TickAction, TickRuntime, Sets;
    TicksDrive(c, l, env, 0, i, r.output);
    SameRead(l.plant, m.plant, r.output);
    StillAllows(l.plant, m.plant, r.output, false);
    PerformSets(c, Observe(m, i, TickRuntime(r, m.rts[i], c.tick), Tick), env, i, TickAction(r, m.rts[i], c.tick));
  }

  lemma TicksSet(c: Config, l: Live, env: Env, i: nat)
    requires l.Fits(c) && i < |c.rules| && Drives(c, l, env, i) && l.plant.Valid()
    ensures var r := c.rules[i];
            Sets(r, TickAction(r, l.rts[i], c.tick), l.plant.store.Read(r.output),
                 TickUpto(c, l, env, |c.rules|).plant.store.Read(r.output))
  {
    var output, m := c.rules[i].output, TickUpto(c, l, env, i + 1);
    assert !DrivenBy(c.rules, i + 1, |c.rules|, output);
    TickTurn(c, l, env, i);
    TicksStep(c, l, env, i + 1);
    EvolvesValid(l.plant, m.plant);
    hide Undriven, Evolves, TickUpto, TickAction, TickRuntime, Plant.Valid, Store.Read, Sets;
    TicksDrive(c, l, env, i + 1, |c.rules|, output);
    SameRead(m.plant, TickUpto(c, l, env, |c.rules|).plant, output);
  }

  /** A tick takes the output that rule `i` alone drives where the rule's history asks. */
  lemma TickSets(w: World, env: Env, i: nat)
    requires Sound(w.config, w.live) && i < |w.config.rules| && Drives(w.config, w.live, env, i)
    ensures w.Shaped()
    ensures var r := w.config.rules[i];
            Sets(r, Emitted(r, w.live.hist[i].seen + [Tick]), w.live.plant.store.Read(r.output),
                 TickAll(w, env).live.plant.store.Read(r.output))
  {
    var c := w.config.(tick := Add32(w.config.tick, 1));
    SoundFits(w.config, w.live);
    TickStep(w, env);
    TicksSet(c, w.live, env, i);
    hide Sound, Evolves, TickUpto, TickAction, Emitted, Sets, LogAfter, Store.Read;
  }

  /**
   * So a delayed output switches exactly at the tick its timer is due: ON_DELAY to its true value,
   * OFF_DELAY and PULSE to their false value; at every other tick, and in every other mode, it stays.
   */
  lemma DelayedOutputSwitches(w: World, sum: Checksum, env: Env, i: nat)
    requires Inv(w, sum) && i < |w.config.rules| && Drives(w.config, w.live, env, i)
    ensures w.Shaped()
    ensures var r, h := w.config.rules[i], w.live.hist[i].seen + [Tick];
            var due := exists a: nat :: DueFrom(r, h, a) && (r.mode == OFF_DELAY_MS ==> NoTrueSince(h, a));
            TickAll(w, env).live.plant.store.Read(r.output) ==
              if due && r.mode == ON_DELAY_MS then r.onTrue
              else if due && (r.mode == OFF_DELAY_MS || r.mode == PULSE_MS) then r.onFalse
              else w.live.plant.store.Read(r.output)
  {
    var r, h := w.config.rules[i], w.live.hist[i].seen + [Tick];
    assert RuleValid(w.config.profile, r);
    InvShaped(w, sum);
    TickSets(w, env, i);
    TicksEmit(r, w.live.hist[i].seen);
    hide Inv, Sound, Drives, TickAll, Emitted, DueFrom, NoTrueSince, Store.Read;
    if r.mode == ON_DELAY_MS { OnDelayFilters(r, h); }
    else if r.mode == OFF_DELAY_MS { OffDelayFilters(r, h); }
    else if r.mode == PULSE_MS { PulseEndsExactly(r, h); }
    else { UntimedNeverRuns(r, h); }
  }

  // ---------------------------------------------------------------------------
  // Commands, to this node and to others
  // ---------------------------------------------------------------------------

  /**
   * Where a command for an output goes: a local one to the output, unless the guard refuses it; another's
   * to the queue, addressed to the owner, if this node has an id, the owner is known and not offline, and
   * the queue has room. The diagnostics of the rule say which, and nothing else changes.
   */
  lemma CommandGoes(c: Config, l: Live, env: Env, output: u16, value: i32, i: nat)
    requires i < |l.diags| && l.plant.Valid() && output < MAX_ENTRIES
    ensures var n := Dispatch(c, l, env, output, value, i);
            var owner, local, allowed := env.owner(output), env.local(output), l.plant.Allows(output);
            var sent := !local && env.selfNode != 0 && owner != 0 && !env.offline(owner) &&
                        c.hasQueue && |l.remote| < 16;
            var d := n.diags[i];
            && n.rts == l.rts && n.hist == l.hist && |n.diags| == |l.diags|
            && (forall j :: 0 <= j < |l.diags| && j != i ==> n.diags[j] == l.diags[j])
            && n.remote == l.remote + (if sent then [RemoteCommand(owner, env.selfNode, output, value)] else [])
            && (local && allowed ==> n.plant.store.Read(output) == if value == 0 then 0 else 1)
            && (!(local && allowed) ==> n.plant == l.plant)
            && (d.outcome == AppliedLocal <==> local && allowed)
            && (d.outcome == BlockedFailSafe <==> local && !allowed)
            && (d.outcome == DispatchedRemote <==> sent)
            && (d.outcome == TargetUnresolved <==> !local && (env.selfNode == 0 || owner == 0))
            && (d.outcome == RemoteOwnerOffline <==> !local && env.selfNode != 0 && owner != 0 && env.offline(owner))
            && d.lastAction == env.now && d.value == (value != 0) && d.local == local
            && d.owner == owner && d.original == env.original(output)
            && d.condition == l.diags[i].condition && d.lastTrigger == l.diags[i].lastTrigger
            && d.lastEval == l.diags[i].lastEval
  {
    if l.plant.Allows(output) { CommandSets(l.plant, output, value); }
    hide Find, Plant.Allows, Plant.Command, Plant.Valid, Store.Read;
  }

  /**
   * A remote command is obeyed exactly if it is addressed to this node's own nonzero id, comes from no
   * one, this node or a known node, and is for an output of the profile that may be driven. Then that
   * output takes its value, and nothing else changes; otherwise nothing changes at all.
   */
  lemma RemoteCommandOutcome(w: World, sum: Checksum, env: Env, cmd: RemoteCommand, other: u16)
    requires Inv(w, sum) && cmd.output < MAX_ENTRIES
    ensures w.Shaped()
    ensures var p, n := w.live.plant, Apply(w, sum, RemoteFrame(env, cmd));
            var q, output := n.live.plant, cmd.output;
            if && env.selfNode != 0 && cmd.target == env.selfNode
               && (cmd.requester == 0 || cmd.requester == env.selfNode || env.known(cmd.requester))
               && output in w.config.profile.outputs && p.Known(output)
               && !(p.At(output).policy.enabled && p.At(output).active && p.At(output).policy.recovery == MANUAL)
            then
              && n == WithPlant(w, q)
              && q.store.Read(output) == (if cmd.value == 0 then 0 else 1)
              && q.Known(output) && q.At(output) == p.At(output).(lastApplied := if cmd.value == 0 then 0 else 1)
              && (other != output ==> q.store.Read(other) == p.store.Read(other))
              && (other != output && p.Known(other) ==> q.Known(other) && q.At(other) == p.At(other))
            else n == w
  {
    InvShaped(w, sum);
    CommandWritesBinary(w.live.plant, cmd.output, cmd.value, other);
    hide Inv, Sound, Find, Plant.Command, Store.Read;
  }

  // ---------------------------------------------------------------------------
  // Permissions and acceptance
  // ---------------------------------------------------------------------------

  /** The six comparisons from two of them. */
  lemma ComparisonsMean(v: i32, t: i32)
    ensures EvalOp(OP_GT, v, t) <==> v > t
    ensures EvalOp(OP_EQ, v, t) <==> v == t
    ensures EvalOp(OP_GE, v, t) <==> EvalOp(OP_GT, v, t) || EvalOp(OP_EQ, v, t)
    ensures EvalOp(OP_NE, v, t) <==> !EvalOp(OP_EQ, v, t)
    ensures EvalOp(OP_LE, v, t) <==> !EvalOp(OP_GT, v, t)
    ensures EvalOp(OP_LT, v, t) <==> !EvalOp(OP_GE, v, t)
  {
  }

  /** A condition of an interlock: the channel's value compared as it says, with equality for an unknown operator. */
  predicate Met(values: seq<i32>, k: Condition) {
    && k.channel < |values|
    && var v := values[k.channel];
       || (k.op == OP_GT && v > k.target) || (k.op == OP_GE && v >= k.target) || (k.op == OP_NE && v != k.target)
       || (k.op == OP_LE && v <= k.target) || (k.op == OP_LT && v < k.target)
       || (k.op !in {OP_GT, OP_GE, OP_NE, OP_LE, OP_LT} && v == k.target)
  }

  /** An interlock permits if it is not in use, if some condition holds under OR, or if all hold otherwise. */
  lemma PermissionMeans(values: seq<i32>, k: Interlock)
    requires k.WellFormed()
    ensures Permitted(values, k) <==>
            || !k.enabled || k.condCount == 0
            || (k.logicOp == 1 && exists x :: 0 <= x < k.condCount && Met(values, k.conditions[x]))
            || (k.logicOp != 1 && forall x :: 0 <= x < k.condCount ==> Met(values, k.conditions[x]))
  {
    ConditionMeans(values, k.conditions[0]);
    ConditionMeans(values, k.conditions[1]);
    hide Met, EvalCondition;
    if k.Active() {
      assert Met(values, k.conditions[0]) ==> exists x :: 0 <= x < k.condCount && Met(values, k.conditions[x]);
      assert k.condCount == 2 && Met(values, k.conditions[1]) ==>
          exists x :: 0 <= x < k.condCount && Met(values, k.conditions[x]);
    }
  }

  lemma ConditionMeans(values: seq<i32>, k: Condition)
    ensures EvalCondition(values, k) <==> Met(values, k)
  {
  }

  /**
   * Exactly which rules are accepted: both values binary, the narrowed ids in the profile, known operator
   * and mode, a duration where the mode needs one, room in the table, and no rule on the same output
   * other than the opposite force.
   */
  lemma AcceptedMeans(c: Config, q: Request)
    ensures Verdict(c, q) == Ok <==>
            && q.onTrue in {0, 1} && q.onFalse in {0, 1} && q.op < 6 && q.mode < 7
            && q.input % 0x1_0000 in c.profile.inputs && q.output % 0x1_0000 in c.profile.outputs
            && (q.mode in {PULSE_MS, ON_DELAY_MS, OFF_DELAY_MS} ==> q.duration > 0)
            && |c.rules| < 16
            && forall e :: e in c.rules && e.output == q.output % 0x1_0000 ==>
                           {e.mode, q.mode} == {MODE_FORCE_ON, MODE_FORCE_OFF}
  {
    if q.onTrue in {0, 1} && q.onFalse in {0, 1} {
      ConflictMeans(c.rules, q.Candidate());
    }
    hide Conflicts;
  }

  /**
   * Why a rule that is not accepted is refused: INVALID comes before DUPLICATE, that before CONFLICT, and a
   * full table is named only when nothing else is wrong.
   */
  lemma RefusalMeans(c: Config, q: Request)
    ensures var valid := && q.onTrue in {0, 1} && q.onFalse in {0, 1} && q.op < 6 && q.mode < 7
                         && q.input % 0x1_0000 in c.profile.inputs && q.output % 0x1_0000 in c.profile.outputs
                         && (q.mode in {PULSE_MS, ON_DELAY_MS, OFF_DELAY_MS} ==> q.duration > 0);
            var there := valid && Rule(q.input % 0x1_0000, q.output % 0x1_0000, q.threshold, q.op, q.mode, q.duration,
                                       q.onTrue, q.onFalse) in c.rules;
            var clash := exists e :: e in c.rules && e.output == q.output % 0x1_0000 &&
                           {e.mode, q.mode} != {MODE_FORCE_ON, MODE_FORCE_OFF};
            && (Verdict(c, q) == Invalid <==> !valid)
            && (Verdict(c, q) == Duplicate <==> there)
            && (Verdict(c, q) == AddResult.Conflict <==> valid && !there && clash)
            && (Verdict(c, q) == Full <==> valid && !there && !clash && |c.rules| >= 16)
  {
    if q.onTrue in {0, 1} && q.onFalse in {0, 1} {
      ConflictMeans(c.rules, q.Candidate());
    }
    hide Conflicts;
  }

  lemma ConflictMeans(rules: seq<Rule>, r: Rule)
    ensures r !in rules && (forall i :: 0 <= i < |rules| ==> !Conflicts(rules[i], r)) <==>
            forall e :: e in rules && e.output == r.output ==> {e.mode, r.mode} == {MODE_FORCE_ON, MODE_FORCE_OFF}
  {
    forall e | e != r && e.output == r.output
      ensures Conflicts(e, r) <==> {e.mode, r.mode} != {MODE_FORCE_ON, MODE_FORCE_OFF}
    {
      assert IsForce(e.mode) && IsForce(r.mode) && e.mode != r.mode ==>
          {e.mode, r.mode} == {MODE_FORCE_ON, MODE_FORCE_OFF};
      assert {e.mode, r.mode} == {MODE_FORCE_ON, MODE_FORCE_OFF} ==>
          e.mode in {MODE_FORCE_ON, MODE_FORCE_OFF} && r.mode in {MODE_FORCE_ON, MODE_FORCE_OFF};
    }
    assert r in rules ==> {r.mode, r.mode} != {MODE_FORCE_ON, MODE_FORCE_OFF};
  }

  // ---------------------------------------------------------------------------
  // Edits of the table, and boot
  // ---------------------------------------------------------------------------

  /** Rule `j` of `n`, with all that belongs to it, is rule `k` of `w`. */
  predicate SameRule(n: World, j: nat, w: World, k: nat)
    requires n.Shaped() && w.Shaped() && j < |n.config.rules| && k < |w.config.rules|
  {
    && n.config.rules[j] == w.config.rules[k] && n.config.locks[j] == w.config.locks[k]
    && n.live.rts[j] == w.live.rts[k] && n.live.diags[j] == w.live.diags[k] && n.live.hist[j] == w.live.hist[k]
  }

  /** Removal takes out one rule with its interlock, timer and diagnostics, and the later ones keep theirs. */
  lemma RemovalShifts(w: World, sum: Checksum, saved: bool, k: int, j: nat)
    requires Inv(w, sum)
    ensures w.Shaped()
    ensures var n, count := Apply(w, sum, RemoveARule(saved, k)), |w.config.rules|;
            && n.live.plant == w.live.plant && n.live.remote == w.live.remote && n.config.tick == w.config.tick
            && (k < 0 || k >= count ==> n == w)
            && (0 <= k < count ==>
                  && n.Shaped() && |n.config.rules| == count - 1
                  && (j < count - 1 ==> SameRule(n, j, w, if j < k then j else j + 1)))
  {
    InvShaped(w, sum);
    hide Inv, Sound, MakeBlob;
    if 0 <= k < |w.config.rules| && j < |w.config.rules| - 1 {
      WithoutAt(w.config.rules, k, j);
      WithoutAt(w.config.locks, k, j);
      WithoutAt(w.live.rts, k, j);
      WithoutAt(w.live.diags, k, j);
      WithoutAt(w.live.hist, k, j);
      hide Without;
    }
  }

  lemma WithoutAt<T>(s: seq<T>, k: nat, j: nat)
    requires k < |s| && j < |s| - 1
    ensures |Without(s, k)| == |s| - 1 && Without(s, k)[j] == s[if j < k then j else j + 1]
  {
  }

  /** An interlock replaces the one of its rule and touches nothing else. */
  lemma LockReplaces(w: World, sum: Checksum, saved: bool, k: int, lock: Interlock, j: nat)
    requires Inv(w, sum) && lock.WellFormed()
    ensures w.Shaped()
    ensures var n := Apply(w, sum, SetALock(saved, k, lock));
            && n.live == w.live && n.config.rules == w.config.rules && n.config.tick == w.config.tick
            && |n.config.locks| == |w.config.locks|
            && (j < |w.config.locks| ==> n.config.locks[j] == if j == k then lock else w.config.locks[j])
  {
    InvShaped(w, sum);
    hide Inv, Sound, MakeBlob;
  }

  lemma ClearEmpties(w: World, sum: Checksum, saved: bool)
    requires Inv(w, sum)
    ensures w.Shaped()
    ensures var n := Apply(w, sum, ClearAll(saved));
            && n.config.rules == [] && n.config.locks == [] && n.live.rts == [] && n.live.hist == []
            && n.live.plant == w.live.plant && n.live.remote == w.live.remote
  {
    InvShaped(w, sum);
    hide Inv, Sound, MakeBlob;
  }

  /**
   * A boot takes the table in flash, rules and interlocks, if the header and the checksum fit, every rule
   * is valid and no two conflict, and no table otherwise; every rule then starts at rest.
   */
  lemma BootStartsAtRest(p: Profile, sum: Checksum, plant: Plant, hasQueue: bool, b: Blob)
    ensures var w := Boot(p, sum, plant, hasQueue, b);
            && (if b.magic == 0x4155_544F && b.version == 4 && b.count <= 16 && |b.nodes| == |b.locks| == 16 &&
                   b.crc == sum(b.magic, b.version, b.count, b.nodes, b.locks) &&
                   AllValid(p, b.nodes[..b.count]) && ConflictFree(b.nodes[..b.count])
                then w.config.rules == b.nodes[..b.count] && w.config.locks == b.locks[..b.count]
                else w.config.rules == [] && w.config.locks == [])
            && w.config.tick == 0 && w.live.plant == plant && w.live.remote == [] && w.flash == b
            && |w.live.rts| == |w.live.hist| == |w.live.diags| == |w.config.rules|
            && forall i :: 0 <= i < |w.config.rules| ==>
                 && !w.live.rts[i].timerActive && !w.live.rts[i].condition && !w.live.rts[i].pulseActive
                 && w.live.hist[i].seen == [] && w.live.hist[i].done == [] && w.live.diags[i].outcome == Unattempted
  {
    hide AllValid, ConflictFree;
  }

  /**
   * An accepted rule goes to the end of the table, without an interlock, and the rules before it keep
   * theirs; any other request changes nothing.
   */
  lemma AddAppends(w: World, sum: Checksum, env: Env, saved: bool, q: Request)
    requires Inv(w, sum)
    ensures w.Shaped()
    ensures var n, k := Apply(w, sum, AddARule(env, saved, q)), |w.config.rules|;
            if Verdict(w.config, q) != Ok then n == w
            else
              && n.config.rules == w.config.rules +
                                   [Rule(q.input % 0x1_0000, q.output % 0x1_0000, q.threshold, q.op, q.mode, q.duration,
                                         q.onTrue, q.onFalse)]
              && |n.config.locks| == k + 1 && n.config.locks[..k] == w.config.locks
              && !n.config.locks[k].enabled && n.config.locks[k].condCount == 0
              && n.config.tick == w.config.tick && n.config.profile == w.config.profile
  {
    InvShaped(w, sum);
    hide Inv, Sound, MakeBlob, AddVerdict, HandleEvent;
  }

  /**
   * A rule acts as soon as it is added: if nothing else drives its output, and that is local and may be
   * driven, the output goes where the present value of the input sends it.
   */
  lemma AddedRuleActs(w: World, sum: Checksum, env: Env, saved: bool, q: Request)
    requires Inv(w, sum) && Verdict(w.config, q) == Ok && q.input % 0x1_0000 < MAX_ENTRIES
    requires var output := q.output % 0x1_0000;
             && env.local(output) && w.live.plant.Allows(output) && output < MAX_ENTRIES
             && forall e :: e in w.config.rules ==> e.output != output
    ensures w.Shaped()
    ensures var r, before := q.Candidate(), w.live.plant.store.Read(q.output % 0x1_0000);
            var after := Apply(w, sum, AddARule(env, saved, q)).live.plant.store.Read(q.output % 0x1_0000);
            var truth := EvalOp(q.op, env.scaled(r.input, w.live.plant.store.Read(r.input)), q.threshold);
            && (q.mode == FOLLOW ==> after == if truth then q.onTrue else q.onFalse)
            && (q.mode == ON_DELAY_MS ==> after == q.onFalse)
            && (q.mode in {OFF_DELAY_MS, PULSE_MS} ==> after == if truth then q.onTrue else before)
            && (q.mode == TOGGLE ==> after == if truth then (if before == 0 then 1 else 0) else before)
            && (q.mode == MODE_FORCE_ON ==> after == if truth then 1 else before)
            && (q.mode == MODE_FORCE_OFF ==> after == if truth then 0 else before)
  {
    var r, v := q.Candidate(), w.live.plant.store.Read(q.input % 0x1_0000);
    InvShaped(w, sum);
    AddedWorld(w, sum, saved, q);
    AddEvaluates(w, sum, env, saved, q);
    hide Inv, Install, Store.Read, Sound, Plant.Allows, HandleEvent, Persist, Verdict, Apply;
    FreshRuleSets(Persist(Install(w, r), sum, saved), env, v);
  }

  lemma AddEvaluates(w: World, sum: Checksum, env: Env, saved: bool, q: Request)
    requires Inv(w, sum) && Verdict(w.config, q) == Ok && q.input % 0x1_0000 < MAX_ENTRIES
    ensures w.Shaped()
    ensures var r := q.Candidate();
            var v := Persist(Install(w, r), sum, saved);
            var ev := Event(STATE_CHANGE, r.input, w.live.plant.store.Read(r.input));
            v.Shaped() && Apply(w, sum, AddARule(env, saved, q)).live == HandleEvent(v.config, v.live, env, ev)
  {
    InvShaped(w, sum);
    AddedWorld(w, sum, saved, q);
    var v := Persist(Install(w, q.Candidate()), sum, saved);
    SoundFits(v.config, v.live);
    hide Inv, Install, Sound, HandleEvent, Persist, Verdict;
  }

  /** The world that evaluates an accepted rule. */
  lemma AddedWorld(w: World, sum: Checksum, saved: bool, q: Request)
    requires Inv(w, sum) && Verdict(w.config, q) == Ok
    ensures w.Shaped() && |w.live.plant.store.values| == MAX_ENTRIES
    ensures var r := q.Candidate();
            var v := Persist(Install(w, r), sum, saved);
            && Sound(v.config, v.live) && v.live.plant == w.live.plant && v.config.rules == w.config.rules + [r]
            && v.config.locks == w.config.locks + [NO_INTERLOCK] && v.live.hist == w.live.hist + [NO_LOG]
  {
    var r := q.Candidate();
    InvShaped(w, sum);
    StoreValid(w.live.plant);
    AcceptedIffDisciplined(w.config.profile, w.config.rules, r);
    InstallInv(w, sum, r);
    PersistInv(Install(w, r), sum, saved);
    InvShaped(Persist(Install(w, r), sum, saved), sum);
    hide Inv, Sound, MakeBlob, Plant.Valid;
  }

  /** What the last rule of the table does at its first evaluation, if it has no interlock and its output to itself. */
  lemma FreshRuleSets(w: World, env: Env, v: i32)
    requires Sound(w.config, w.live) && w.config.rules != []
    requires var k := |w.config.rules| - 1;
             && Drives(w.config, w.live, env, k) && w.live.hist[k].seen == [] && !w.config.locks[k].enabled
    ensures w.Shaped()
    ensures var r := w.config.rules[|w.config.rules| - 1];
            var before := w.live.plant.store.Read(r.output);
            var after := HandleEvent(w.config, w.live, env, Event(STATE_CHANGE, r.input, v)).plant.store.Read(r.output);
            var onTrue, onFalse := if r.onTrue == 0 then 0 else 1, if r.onFalse == 0 then 0 else 1;
            var truth := EvalOp(r.op, env.scaled(r.input, v), r.threshold);
            && (r.mode == FOLLOW ==> after == if truth then onTrue else onFalse)
            && (r.mode == ON_DELAY_MS ==> after == onFalse)
            && (r.mode in {OFF_DELAY_MS, PULSE_MS} ==> after == if truth then onTrue else before)
            && (r.mode == TOGGLE ==> after == if truth then (if before == 0 then 1 else 0) else before)
            && (r.mode == MODE_FORCE_ON ==> after == if truth then 1 else before)
            && (r.mode == MODE_FORCE_OFF ==> after == if truth then 0 else before)
  {
    var k := |w.config.rules| - 1;
    var r := w.config.rules[k];
    SoundFits(w.config, w.live);
    RuleSets(w.config, w.live, env, Event(STATE_CHANGE, r.input, v), k);
    hide Sound, Drives, HandleEvent, Store.Read;
  }
}
