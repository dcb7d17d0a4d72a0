/**
 * One rule's runtime: the engine's four flags and wrapping deadline, the clock-free countdown they
 * implement, and what the timed modes promise over every history of observations.
 */
module RuleTimers {
  import opened Words
  import opened AutomationRules

  // ---------------------------------------------------------------------------
  // The engine's representation
  // ---------------------------------------------------------------------------

  datatype Runtime = Runtime(condition: bool, timerActive: bool, pulseActive: bool,
                             latchedTrue: bool, deadline: u32)

  const IDLE: Runtime := Runtime(false, false, false, false, 0)

  /** What a rule asks of its output: one of its two configured values, a toggle, or a forced value. */
  datatype Action = Nothing | Branch(truth: bool) | Toggle | Force(on: bool)

  /** The runtime after evaluating the condition at clock `tick`. */
  function EvalRuntime(r: Rule, rt: Runtime, tick: u32, cond: bool, permitted: bool): Runtime {
    var rt1 := rt.(condition := cond);
    var rising := cond && !rt.condition;
    if cond && !permitted then rt1
    else if r.mode == FOLLOW then
      rt1.(timerActive := false, pulseActive := false, latchedTrue := cond)
    else if r.mode == PULSE_MS then
      if rising then rt1.(timerActive := true, pulseActive := true, deadline := Add32(tick, r.duration)) else rt1
    else if r.mode == ON_DELAY_MS then
      if cond then rt1.(timerActive := true, latchedTrue := false, deadline := Add32(tick, r.duration))
      else rt1.(timerActive := false, latchedTrue := false)
    else if r.mode == OFF_DELAY_MS then
      if cond then rt1.(timerActive := false, latchedTrue := true)
      else rt1.(timerActive := true, deadline := Add32(tick, r.duration))
    else rt1
  }

  function EvalAction(r: Rule, rt: Runtime, cond: bool, permitted: bool): Action {
    var rising := cond && !rt.condition;
    if cond && !permitted then Nothing
    else if r.mode == FOLLOW then Branch(cond)
    else if r.mode == PULSE_MS then if rising then Branch(true) else Nothing
    else if r.mode == ON_DELAY_MS then Branch(false)
    else if r.mode == OFF_DELAY_MS then if cond then Branch(true) else Nothing
    else if r.mode == TOGGLE then if rising then Toggle else Nothing
    else if r.mode == MODE_FORCE_ON then if rising then Force(true) else Nothing
    else if r.mode == MODE_FORCE_OFF then if rising then Force(false) else Nothing
    else Nothing
  }

  /** `(int32_t)(tick - deadline) >= 0` */
  predicate TimeReached(tick: u32, deadline: u32) {
    Signed32(Sub32(tick, deadline)) >= 0
  }

  function TickRuntime(r: Rule, rt: Runtime, tick: u32): Runtime {
    if !rt.timerActive || !TimeReached(tick, rt.deadline) then rt
    else
      var rt1 := rt.(timerActive := false);
      if r.mode == PULSE_MS then rt1.(pulseActive := false)
      else if r.mode == ON_DELAY_MS && rt.condition then rt1.(latchedTrue := true)
      else if r.mode == OFF_DELAY_MS && !rt.condition then rt1.(latchedTrue := false)
      else rt1
  }

  function TickAction(r: Rule, rt: Runtime, tick: u32): Action {
    if !rt.timerActive || !TimeReached(tick, rt.deadline) then Nothing
    else if r.mode == PULSE_MS && rt.pulseActive then Branch(false)
    else if r.mode == ON_DELAY_MS && rt.condition then Branch(true)
    else if r.mode == OFF_DELAY_MS && !rt.condition then Branch(false)
    else Nothing
  }

  function TripRuntime(rt: Runtime): Runtime {
    rt.(timerActive := false, pulseActive := false, latchedTrue := false)
  }

  // ---------------------------------------------------------------------------
  // The clock-free countdown
  // ---------------------------------------------------------------------------

  /** What a rule can observe: an evaluation, its interlock tripping while its output is on, a tick. */
  datatype Obs = Eval(cond: bool, permitted: bool) | Trip | Tick

  /** `left` is the number of ticks to expiry, 0 when no timer runs. */
  datatype Countdown = Countdown(condition: bool, left: nat, pulse: bool, latched: bool)

  const RESTING: Countdown := Countdown(false, 0, false, false)

  function Step(r: Rule, c: Countdown, o: Obs): Countdown {
    match o
    case Trip => c.(left := 0, pulse := false, latched := false)
    case Tick =>
      if c.left != 1 then c.(left := if c.left == 0 then 0 else c.left - 1)
      else
        var c1 := c.(left := 0);
        if r.mode == PULSE_MS then c1.(pulse := false)
        else if r.mode == ON_DELAY_MS && c.condition then c1.(latched := true)
        else if r.mode == OFF_DELAY_MS && !c.condition then c1.(latched := false)
        else c1
    case Eval(cond, permitted) =>
      var c1 := c.(condition := cond);
      if cond && !permitted then c1
      else if r.mode == FOLLOW then c1.(left := 0, pulse := false, latched := cond)
      else if r.mode == PULSE_MS then
        if cond && !c.condition then c1.(left := r.duration, pulse := true) else c1
      else if r.mode == ON_DELAY_MS then
        c1.(left := if cond then r.duration else 0, latched := false)
      else if r.mode == OFF_DELAY_MS then
        if cond then c1.(left := 0, latched := true) else c1.(left := r.duration)
      else c1
  }

  function Act(r: Rule, c: Countdown, o: Obs): Action {
    match o
    case Trip => Branch(false)
    case Tick =>
      if c.left != 1 then Nothing
      else if r.mode == PULSE_MS && c.pulse then Branch(false)
      else if r.mode == ON_DELAY_MS && c.condition then Branch(true)
      else if r.mode == OFF_DELAY_MS && !c.condition then Branch(false)
      else Nothing
    case Eval(cond, permitted) =>
      EvalAction(r, Runtime(c.condition, false, false, false, 0), cond, permitted)
  }

  /** The countdown a runtime stands for at clock `tick`. */
  function Abstract(rt: Runtime, tick: u32): Countdown {
    Countdown(rt.condition, if rt.timerActive then Sub32(rt.deadline, tick) else 0, rt.pulseActive, rt.latchedTrue)
  }

  /**
   * The timer invariant: an active deadline is 1 to `duration` ticks ahead modulo 2^32, only timed
   * modes have one, and a pulse is active exactly while its timer is.
   */
  predicate InStep(r: Rule, rt: Runtime, tick: u32) {
    && (IsTimed(r.mode) ==> r.duration > 0)
    && (rt.timerActive ==> IsTimed(r.mode) && 1 <= Sub32(rt.deadline, tick) <= r.duration)
    && (r.mode == PULSE_MS ==> rt.pulseActive == rt.timerActive)
  }

  lemma EvalRefines(r: Rule, rt: Runtime, tick: u32, cond: bool, permitted: bool)
    requires InStep(r, rt, tick)
    ensures InStep(r, EvalRuntime(r, rt, tick, cond, permitted), tick)
    ensures Abstract(EvalRuntime(r, rt, tick, cond, permitted), tick) ==
            Step(r, Abstract(rt, tick), Eval(cond, permitted))
    ensures EvalAction(r, rt, cond, permitted) == Act(r, Abstract(rt, tick), Eval(cond, permitted))
  {
  }

  /** Advancing the wrapping clock by one is one tick of the countdown, whatever the clock reads. */
  lemma TickRefines(r: Rule, rt: Runtime, tick: u32)
    requires InStep(r, rt, tick)
    ensures var now := Add32(tick, 1);
            && InStep(r, TickRuntime(r, rt, now), now)
            && Abstract(TickRuntime(r, rt, now), now) == Step(r, Abstract(rt, tick), Tick)
            && TickAction(r, rt, now) == Act(r, Abstract(rt, tick), Tick)
  {
  }

  lemma TripRefines(r: Rule, rt: Runtime, tick: u32)
    requires InStep(r, rt, tick)
    ensures InStep(r, TripRuntime(rt), tick)
    ensures Abstract(TripRuntime(rt), tick) == Step(r, Abstract(rt, tick), Trip)
  {
  }

  /**
   * A true evaluation that the interlock blocks asks nothing of the output and only notes the condition:
   * it leaves a running timer alone, and it uses up the rising edge, so that a permitted true evaluation
   * next starts no pulse, no toggle and no force.
   */
  lemma BlockedEvaluation(r: Rule, rt: Runtime, tick: u32, later: u32)
    ensures EvalRuntime(r, rt, tick, true, false) == rt.(condition := true) && EvalAction(r, rt, true, false) == Nothing
    ensures var next := EvalRuntime(r, rt, tick, true, false);
            r.mode in {PULSE_MS, TOGGLE, MODE_FORCE_ON, MODE_FORCE_OFF} ==>
              EvalAction(r, next, true, true) == Nothing && EvalRuntime(r, next, later, true, true) == next
  {
  }

  // ---------------------------------------------------------------------------
  // Histories
  // ---------------------------------------------------------------------------

  type History = seq<Obs>

  function Past(h: History): History
    requires h != []
  {
    h[..|h| - 1]
  }

  function Last(h: History): Obs
    requires h != []
  {
    h[|h| - 1]
  }

  /** The countdown of a rule that has observed `h` since it was installed. */
  function Replay(r: Rule, h: History): Countdown {
    if h == [] then RESTING else Step(r, Replay(r, Past(h)), Last(h))
  }

  /** What the rule asks of its output at the last observation of `h`. */
  function Emitted(r: Rule, h: History): Action
    requires h != []
  {
    Act(r, Replay(r, Past(h)), Last(h))
  }

  /** An action handed to a rule's output, and how many observations the rule had made by then. */
  datatype Doing = Doing(at: nat, action: Action)

  /** What a rule has observed and done since it was installed. */
  datatype Log = Log(seen: History, done: seq<Doing>)

  const NO_LOG: Log := Log([], [])

  /** The log after one more observation, answered by an action. */
  function LogAfter(g: Log, o: Obs, a: Action): Log {
    Log(g.seen + [o], g.done + if a == Nothing then [] else [Doing(|g.seen| + 1, a)])
  }

  /** All that a rule with history `h` was to do. */
  function Doings(r: Rule, h: History): seq<Doing> {
    if h == [] then []
    else Doings(r, Past(h)) + if Emitted(r, h) == Nothing then [] else [Doing(|h|, Emitted(r, h))]
  }

  /** Something was emitted at observation `e` exactly when it is among the doings. */
  lemma {:induction false} DoingsAreEmitted(r: Rule, h: History, d: Doing)
    ensures d in Doings(r, h) <==> 0 < d.at <= |h| && d.action != Nothing && d.action == Emitted(r, h[..d.at])
  {
    if h != [] {
      DoingsAreEmitted(r, Past(h), d);
      hide Emitted;
      assert d.at == |h| ==> h[..d.at] == h;
      assert 0 < d.at < |h| ==> h[..d.at] == Past(h)[..d.at];
    }
  }

  /** The value of the last evaluation in `h`, false before the first. */
  function LastCondition(h: History): bool {
    if h == [] then false
    else if Last(h).Eval? then Last(h).cond
    else LastCondition(Past(h))
  }

  /** Observation `a` of `h` starts the rule's timer. */
  predicate Arms(r: Rule, h: History, a: nat)
    requires a < |h|
  {
    if r.mode == PULSE_MS then h[a] == Eval(true, true) && !LastCondition(h[..a])
    else if r.mode == ON_DELAY_MS then h[a] == Eval(true, true)
    else if r.mode == OFF_DELAY_MS then h[a].Eval? && !h[a].cond
    else false
  }

  /**
   * What an evaluation asks of the output, mode by mode: nothing if the interlock blocks it; otherwise
   * FOLLOW drives the branch of the condition, ON_DELAY the false branch, OFF_DELAY the true branch on a
   * true condition, and the other four act on a rising edge only.
   */
  lemma EvaluationEmits(r: Rule, h: History, cond: bool, permitted: bool)
    ensures var a := Emitted(r, h + [Eval(cond, permitted)]);
            var rising := cond && permitted && !LastCondition(h);
            && (cond && !permitted ==> a == Nothing)
            && (r.mode == FOLLOW && (cond ==> permitted) ==> a == Branch(cond))
            && (r.mode == ON_DELAY_MS && (cond ==> permitted) ==> a == Branch(false))
            && (r.mode == OFF_DELAY_MS ==> a == if cond && permitted then Branch(true) else Nothing)
            && (r.mode == PULSE_MS ==> a == if rising then Branch(true) else Nothing)
            && (r.mode == TOGGLE ==> a == if rising then Toggle else Nothing)
            && (r.mode == MODE_FORCE_ON ==> a == if rising then Force(true) else Nothing)
            && (r.mode == MODE_FORCE_OFF ==> a == if rising then Force(false) else Nothing)
  {
    assert Past(h + [Eval(cond, permitted)]) == h;
    ReplayCondition(r, h);
    hide Replay;
  }

  /** Losing the permission while the output is on drives the false branch, in every mode. */
  lemma TripEmits(r: Rule, h: History)
    ensures Emitted(r, h + [Trip]) == Branch(false)
  {
    hide Replay;
  }

  /** The latched flag is the branch a FOLLOW, ON_DELAY or OFF_DELAY rule drove last; no other mode sets it. */
  lemma {:induction false} LatchedIsLastBranch(r: Rule, h: History)
    ensures var done := Doings(r, h);
            Replay(r, h).latched <==>
            r.mode in {FOLLOW, ON_DELAY_MS, OFF_DELAY_MS} && done != [] && done[|done| - 1].action == Branch(true)
  {
    if h != [] { LatchedIsLastBranch(r, Past(h)); }
  }

  /** An observation that stops a running timer without restarting it. */
  predicate Cancels(r: Rule, o: Obs) {
    || o == Trip
    || (r.mode == ON_DELAY_MS && o.Eval? && !o.cond)
    || (r.mode == OFF_DELAY_MS && o == Eval(true, true))
  }

  /** The number of ticks after observation `a`. */
  function TicksAfter(h: History, a: nat): nat {
    if |h| <= a + 1 then 0
    else TicksAfter(Past(h), a) + if Last(h) == Tick then 1 else 0
  }

  /** The timer armed at `a` was neither re-armed nor cancelled since. */
  ghost predicate Undisturbed(r: Rule, h: History, a: nat)
    requires a < |h|
  {
    Arms(r, h, a) && forall k :: a < k < |h| ==> !Arms(r, h, k) && !Cancels(r, h[k])
  }

  lemma {:induction false} ReplayCondition(r: Rule, h: History)
    ensures Replay(r, h).condition == LastCondition(h)
  {
    if h != [] { ReplayCondition(r, Past(h)); }
  }

  lemma PrefixFacts(r: Rule, h: History, a: nat)
    requires h != [] && a < |h| - 1
    ensures Arms(r, Past(h), a) == Arms(r, h, a)
    ensures Undisturbed(r, h, a) <==>
              Undisturbed(r, Past(h), a) && !Arms(r, h, |h| - 1) && !Cancels(r, Last(h))
  {
    var p := Past(h);
    assert forall k :: 0 <= k < |p| ==> p[k] == h[k] && p[..k] == h[..k];
    if Undisturbed(r, h, a) {
      forall k | a < k < |p| ensures !Arms(r, p, k) && !Cancels(r, p[k]) {
        assert !Arms(r, h, k);
      }
    }
    if Undisturbed(r, p, a) && !Arms(r, h, |h| - 1) && !Cancels(r, Last(h)) {
      forall k | a < k < |h| ensures !Arms(r, h, k) && !Cancels(r, h[k]) {
        if k < |p| { assert !Arms(r, p, k); }
      }
    }
  }

  /** A timer armed at `a` and left alone has `duration` minus the ticks since left, and then expires. */
  lemma {:induction false} ArmedCountsDown(r: Rule, h: History, a: nat)
    requires IsTimed(r.mode) && r.duration > 0
    requires a < |h| && Undisturbed(r, h, a)
    ensures Replay(r, h).left == if TicksAfter(h, a) < r.duration then r.duration - TicksAfter(h, a) else 0
  {
    ReplayCondition(r, Past(h));
    if a == |h| - 1 {
      assert h[..a] == Past(h);
    } else {
      PrefixFacts(r, h, a);
      ArmedCountsDown(r, Past(h), a);
      assert h[..|h| - 1] == Past(h);
    }
  }

  /** A running timer was armed by some observation that nothing has disturbed since. */
  lemma {:induction false} RunningWasArmed(r: Rule, h: History) returns (a: nat)
    requires r.duration > 0 && Replay(r, h).left > 0
    ensures IsTimed(r.mode) && a < |h| && Undisturbed(r, h, a)
    ensures TicksAfter(h, a) < r.duration && Replay(r, h).left == r.duration - TicksAfter(h, a)
  {
    var n := |h| - 1;
    var p := Past(h);
    assert h[..n] == p;
    ReplayCondition(r, p);
    if IsTimed(r.mode) && Arms(r, h, n) {
      a := n;
    } else {
      assert Replay(r, p).left > 0;
      a := RunningWasArmed(r, p);
      PrefixFacts(r, h, a);
    }
    ArmedCountsDown(r, h, a);
  }

  /** The timer of the rule expires at the last observation of `h`. */
  predicate Expires(r: Rule, h: History)
    requires h != []
  {
    Last(h) == Tick && Replay(r, Past(h)).left == 1
  }

  /** Observation `a` armed the timer exactly `duration` ticks ago and nothing disturbed it. */
  ghost predicate DueFrom(r: Rule, h: History, a: nat) {
    a < |h| && Undisturbed(r, h, a) && TicksAfter(h, a) == r.duration
  }

  /**
   * Timer exactness: a timer expires at a tick if and only if it was armed exactly `duration`
   * ticks earlier and was neither re-armed nor cancelled in between.
   */
  lemma ExpiresExactly(r: Rule, h: History)
    requires IsTimed(r.mode) && r.duration > 0
    requires h != [] && Last(h) == Tick
    ensures Expires(r, h) <==> exists a: nat :: DueFrom(r, h, a)
  {
    var p := Past(h);
    if Expires(r, h) {
      var a := RunningWasArmed(r, p);
      PrefixFacts(r, h, a);
      assert DueFrom(r, h, a);
    }
    if a: nat :| DueFrom(r, h, a) {
      assert a < |h| - 1;
      PrefixFacts(r, h, a);
      ArmedCountsDown(r, p, a);
    }
  }

  /** No false evaluation after `a`. */
  predicate NoFalseSince(h: History, a: nat) {
    forall k :: a < k < |h| ==> !(h[k].Eval? && !h[k].cond)
  }

  /** No true evaluation after `a`. */
  predicate NoTrueSince(h: History, a: nat) {
    forall k :: a < k < |h| ==> !(h[k].Eval? && h[k].cond)
  }

  lemma {:induction false} ConditionSince(h: History, a: nat)
    requires a < |h| && h[a].Eval?
    ensures h[a].cond && NoFalseSince(h, a) ==> LastCondition(h)
    ensures !h[a].cond ==> (NoTrueSince(h, a) ==> !LastCondition(h))
  {
    if a < |h| - 1 { ConditionSince(Past(h), a); }
  }

  /**
   * ON_DELAY is a true filter: its true branch is driven at the last observation of `h` if and only
   * if that is the tick `duration` ticks after a permitted true evaluation that nothing re-armed or
   * cancelled, and then no false evaluation lies between.
   */
  lemma OnDelayFilters(r: Rule, h: History)
    requires r.mode == ON_DELAY_MS && r.duration > 0 && h != []
    ensures Emitted(r, h) == Branch(true) <==> Last(h) == Tick && exists a: nat :: DueFrom(r, h, a)
    ensures forall a: nat :: DueFrom(r, h, a) ==> h[a] == Eval(true, true) && NoFalseSince(h, a)
  {
    var p := Past(h);
    ReplayCondition(r, p);
    if Last(h) == Tick {
      ExpiresExactly(r, h);
      if a: nat :| DueFrom(r, h, a) {
        assert a < |h| - 1;
        PrefixFacts(r, h, a);
        ConditionSince(p, a);
      }
    }
  }

  /**
   * OFF_DELAY's timer drives the false branch if and only if it was armed by a false evaluation
   * exactly `duration` ticks ago, undisturbed, and no true evaluation, permitted or not, came since.
   */
  lemma OffDelayFilters(r: Rule, h: History)
    requires r.mode == OFF_DELAY_MS && r.duration > 0 && h != [] && Last(h) == Tick
    ensures Emitted(r, h) == Branch(false) <==> exists a: nat :: DueFrom(r, h, a) && NoTrueSince(h, a)
  {
    var p := Past(h);
    ReplayCondition(r, p);
    ExpiresExactly(r, h);
    if a: nat :| DueFrom(r, h, a) {
      assert a < |h| - 1;
      PrefixFacts(r, h, a);
      FalseUnlessTrueSince(r, p, a);
      assert NoTrueSince(h, a) <==> NoTrueSince(p, a);
      if b: nat :| DueFrom(r, h, b) && NoTrueSince(h, b) {
        assert b == a;
      }
    }
  }

  /** After an undisturbed false evaluation of an OFF_DELAY rule, the condition is false unless a true one came. */
  lemma {:induction false} FalseUnlessTrueSince(r: Rule, h: History, a: nat)
    requires r.mode == OFF_DELAY_MS && a < |h| && Undisturbed(r, h, a)
    ensures !LastCondition(h) <==> NoTrueSince(h, a)
  {
    if a < |h| - 1 {
      PrefixFacts(r, h, a);
      FalseUnlessTrueSince(r, Past(h), a);
      assert !Arms(r, h, |h| - 1);
    }
  }

  /** A pulse is active exactly while its timer runs. */
  lemma {:induction false} PulseIffTimer(r: Rule, h: History)
    requires r.mode == PULSE_MS && r.duration > 0
    ensures Replay(r, h).pulse <==> Replay(r, h).left > 0
  {
    if h != [] { PulseIffTimer(r, Past(h)); }
  }

  /**
   * A pulse ends at a tick if and only if it was started exactly `duration` ticks earlier and neither
   * restarted nor tripped.
   */
  lemma PulseEndsExactly(r: Rule, h: History)
    requires r.mode == PULSE_MS && r.duration > 0 && h != [] && Last(h) == Tick
    ensures Emitted(r, h) == Branch(false) <==> exists a: nat :: DueFrom(r, h, a)
  {
    PulseIffTimer(r, Past(h));
    ExpiresExactly(r, h);
  }

  /** Observation `e` drives the false branch of the rule. */
  predicate DrivesFalseAt(r: Rule, h: History, e: nat) {
    e < |h| && Emitted(r, h[..e + 1]) == Branch(false)
  }

  /**
   * No pulse is left on: once `duration` ticks have passed since the last start of a pulse, its false
   * branch has been driven after that start, at most `duration` ticks after it.
   */
  lemma {:induction false} NoPulseLeftOn(r: Rule, h: History, a: nat) returns (e: nat)
    requires r.mode == PULSE_MS && r.duration > 0
    requires a < |h| && Arms(r, h, a) && TicksAfter(h, a) >= r.duration
    requires forall k :: a < k < |h| ==> !Arms(r, h, k)
    ensures a < e < |h| && DrivesFalseAt(r, h, e) && TicksAfter(h[..e + 1], a) <= r.duration
    ensures h[e] == Trip || TicksAfter(h[..e + 1], a) == r.duration
  {
    var p := Past(h);
    assert a < |h| - 1;
    assert h[..a] == p[..a];
    forall k | a < k < |p| ensures !Arms(r, p, k) { assert p[..k] == h[..k]; assert !Arms(r, h, k); }
    if TicksAfter(p, a) >= r.duration {
      e := NoPulseLeftOn(r, p, a);
      assert p[..e + 1] == h[..e + 1];
    } else if k: nat :| a < k < |p| && p[k] == Trip {
      e := k;
      assert p[..e + 1] == h[..e + 1];
      TicksMonotone(p, a, e + 1);
      assert Last(h[..e + 1]) == Trip;
    } else {
      e := |h| - 1;
      assert h[..e + 1] == h;
      assert Undisturbed(r, p, a);
      ArmedCountsDown(r, p, a);
      PulseIffTimer(r, p);
    }
  }

  lemma {:induction false} TicksMonotone(h: History, a: nat, n: nat)
    requires n <= |h|
    ensures TicksAfter(h[..n], a) <= TicksAfter(h, a)
  {
    if n == |h| {
      assert h[..n] == h;
    } else {
      assert h[..n] == Past(h)[..n];
      TicksMonotone(Past(h), a, n);
    }
  }

  /** Modes without a timer never run one, and do nothing at a tick. */
  lemma {:induction false} UntimedNeverRuns(r: Rule, h: History)
    requires r.mode !in {PULSE_MS, ON_DELAY_MS, OFF_DELAY_MS}
    ensures Replay(r, h).left == 0
    ensures h != [] && Last(h) == Tick ==> Emitted(r, h) == Nothing
  {
    if h != [] { UntimedNeverRuns(r, Past(h)); }
  }

  /** At a tick ON_DELAY can drive only its true branch, OFF_DELAY and PULSE only their false one. */
  lemma TicksEmit(r: Rule, h: History)
    ensures var a := Emitted(r, h + [Tick]);
            && (r.mode == ON_DELAY_MS ==> a in {Nothing, Branch(true)})
            && (r.mode in {OFF_DELAY_MS, PULSE_MS} ==> a in {Nothing, Branch(false)})
  {
    hide Replay;
  }
}
