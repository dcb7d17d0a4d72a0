/** The transport failover machine: primary, fallback, and the hysteresis between them. */
module Network {
  import opened Words

  datatype State = Disconnected | Connecting | Connected | Degraded | Recovering

  const PROFILE_NONE: u8 := 0
  const PROFILE_WIFI: u8 := 1
  const PROFILE_ETHERNET: u8 := 2
  const PROFILE_RS485: u8 := 3

  const CLUSTER_NONE: u8 := 0
  const CLUSTER_WIFI_UDP: u8 := 1
  const CLUSTER_ETHERNET_UDP: u8 := 2
  const CLUSTER_RS485: u8 := 3

  const DEFAULT_FAILOVER_MS: u32 := 5000
  const DEFAULT_HYSTERESIS_MS: u32 := 15000

  function MapTransport(t: u8): u8 {
    if t == PROFILE_WIFI then CLUSTER_WIFI_UDP
    else if t == PROFILE_ETHERNET then CLUSTER_ETHERNET_UDP
    else if t == PROFILE_RS485 then CLUSTER_RS485
    else CLUSTER_NONE
  }

  /** The network policy of the active profile. */
  datatype Policy = Policy(primary: u8, fallback: u8, failoverDelay: u32, hysteresis: u32, gateway: bool)

  /** A zero in the profile means the default. */
  function Effective(p: Policy): Policy {
    p.(failoverDelay := if p.failoverDelay == 0 then DEFAULT_FAILOVER_MS else p.failoverDelay,
       hysteresis := if p.hysteresis == 0 then DEFAULT_HYSTERESIS_MS else p.hysteresis)
  }

  datatype Metrics = Metrics(sent: u32, received: u32, drops: u32, lastRtt: u32, maxJitter: u32,
                             failovers: u32, active: u8, current: State)

  const NO_METRICS: Metrics := Metrics(0, 0, 0, 0, 0, 0, 0, Disconnected)

  /** The machine's variables; the three instants are readings of a 32-bit millisecond clock. */
  datatype Machine = Machine(state: State, policy: Policy, metrics: Metrics,
                             lastOk: u32, degradedAt: u32, recoveringAt: u32)

  function Switch(m: Machine, transport: u8): Machine {
    m.(metrics := m.metrics.(active := MapTransport(transport)))
  }

  /** Whether a connected node gives up its primary link at clock `t`. */
  predicate GivesUp(m: Machine, t: u32) {
    && m.state == Connected && !m.policy.gateway && m.policy.fallback != PROFILE_NONE
    && Sub32(t, m.lastOk) > m.policy.failoverDelay
  }

  function Initialized(p: Policy, t: u32): Machine {
    var q := Effective(p);
    Machine(Connecting, q, NO_METRICS.(active := MapTransport(q.primary), current := Connecting), t, 0, 0)
  }

  function Processed(m: Machine, t: u32, ready: bool): Machine {
    var n := match m.state
      case Disconnected => if ready then m.(state := Connecting) else m
      case Connecting => if ready then m.(state := Connected, lastOk := t) else m
      case Connected =>
        if GivesUp(m, t) then
          Switch(m, m.policy.fallback).(state := Degraded, degradedAt := t,
            metrics := Switch(m, m.policy.fallback).metrics.(failovers := Add32(m.metrics.failovers, 1)))
        else m
      case Degraded =>
        if Sub32(t, m.degradedAt) >= m.policy.hysteresis
        then Switch(m, m.policy.primary).(state := Recovering, recoveringAt := t) else m
      case Recovering =>
        if ready && Sub32(t, m.lastOk) < m.policy.failoverDelay then m.(state := Connected)
        else if Sub32(t, m.recoveringAt) > m.policy.failoverDelay / 2
        then Switch(m, m.policy.fallback).(state := Degraded, degradedAt := t) else m;
    n.(metrics := n.metrics.(current := n.state))
  }

  function Noted(m: Machine, t: u32, rx: bool, success: bool, rtt: u32): Machine {
    var c := m.metrics;
    var c1 := if rx then c.(received := Add32(c.received, 1))
              else c.(sent := Add32(c.sent, 1), drops := if success then c.drops else Add32(c.drops, 1));
    var c2 := if rtt > 0 then c1.(lastRtt := rtt, maxJitter := if rtt > c1.maxJitter then rtt else c1.maxJitter)
      else c1;
    m.(metrics := c2, lastOk := if rx then t else m.lastOk)
  }

  function Reconnected(m: Machine, t: u32): Machine {
    Switch(m, m.policy.primary).(state := Connecting, lastOk := t)
  }

  // ---------------------------------------------------------------------------
  // Runs, in true time
  // ---------------------------------------------------------------------------

  datatype Op = Process(ready: bool) | Packet(rx: bool, success: bool, rtt: u32) | ForceReconnect

  /** A call at true time `at`, of which the machine reads the low 32 bits. */
  datatype Call = Call(at: nat, op: Op)

  function Apply(m: Machine, c: Call): Machine {
    match c.op
    case Process(ready) => Processed(m, Low32(c.at), ready)
    case Packet(rx, success, rtt) => Noted(m, Low32(c.at), rx, success, rtt)
    case ForceReconnect => Reconnected(m, Low32(c.at))
  }

  predicate FailsOver(m: Machine, c: Call) {
    c.op.Process? && GivesUp(m, Low32(c.at))
  }

  function Run(m: Machine, calls: seq<Call>): Machine {
    if calls == [] then m else Apply(Run(m, calls[..|calls| - 1]), calls[|calls| - 1])
  }

  /** The true times at which the failover counter was incremented. */
  function Failovers(m: Machine, calls: seq<Call>): seq<nat> {
    if calls == [] then []
    else
      var past, c := calls[..|calls| - 1], calls[|calls| - 1];
      Failovers(m, past) + if FailsOver(Run(m, past), c) then [c.at] else []
  }

  predicate InOrder(start: nat, calls: seq<Call>) {
    && (forall i :: 0 <= i < |calls| ==> start <= calls[i].at)
    && (forall i, j :: 0 <= i < j < |calls| ==> calls[i].at <= calls[j].at)
  }

  /** The smaller of the hysteresis and the failover delay. */
  function Gap(p: Policy): u32 {
    if p.hysteresis < p.failoverDelay then p.hysteresis else p.failoverDelay
  }

  /** The true instants behind the machine's three clock readings. */
  datatype Instants = Instants(lastOk: nat, degradedAt: nat, recoveringAt: nat)

  predicate Behind(m: Machine, i: Instants, now: nat) {
    && i.lastOk <= now && i.degradedAt <= now && i.recoveringAt <= now
    && m.lastOk == Low32(i.lastOk) && m.degradedAt == Low32(i.degradedAt) && m.recoveringAt == Low32(i.recoveringAt)
  }

  /** No failover can happen again sooner than the gap after one at `last`. */
  predicate Calm(m: Machine, i: Instants, now: nat, last: nat) {
    && last <= now
    && (m.state == Degraded ==> last <= i.degradedAt)
    && (m.state == Recovering ==> last + m.policy.hysteresis <= now)
    && (m.state == Connected ==> last + m.policy.hysteresis <= now || last <= i.lastOk)
  }

  ghost predicate Spaced(times: seq<nat>, gap: nat) {
    forall i, j :: 0 <= i < j < |times| ==> times[i] + gap <= times[j]
  }

  /** What a run keeps, in true time. */
  ghost predicate Steady(m: Machine, i: Instants, now: nat, times: seq<nat>) {
    && Behind(m, i, now)
    && Spaced(times, Gap(m.policy))
    && (times != [] ==> Calm(m, i, now, times[|times| - 1]))
  }

  function InstantsAfter(m: Machine, i: Instants, c: Call): Instants {
    var n := Apply(m, c);
    Instants(
      if (c.op.Packet? && c.op.rx) || c.op.ForceReconnect? || (c.op.Process? && m.state == Connecting && c.op.ready)
         then c.at else i.lastOk,
      if c.op.Process? && m.state != Degraded && n.state == Degraded then c.at else i.degradedAt,
      if c.op.Process? && m.state == Degraded && n.state == Recovering then c.at else i.recoveringAt)
  }

  lemma SpacedNext(times: seq<nat>, gap: nat, t: nat)
    requires Spaced(times, gap) && (times != [] ==> times[|times| - 1] + gap <= t)
    ensures Spaced(times + [t], gap)
  {
    forall i, j | 0 <= i < j < |times + [t]| ensures (times + [t])[i] + gap <= (times + [t])[j] {
      if j == |times| && i < |times| - 1 { assert times[i] + gap <= times[|times| - 1]; }
    }
  }

  /** Each call keeps the run steady; a failover comes no sooner than the gap after the one before. */
  lemma StepSteady(m: Machine, i: Instants, now: nat, times: seq<nat>, c: Call)
    requires Steady(m, i, now, times) && now <= c.at
    ensures Steady(Apply(m, c), InstantsAfter(m, i, c), c.at, times + if FailsOver(m, c) then [c.at] else [])
    ensures Apply(m, c).policy == m.policy
  {
    hide Spaced;
    ElapsedBound(c.at, i.lastOk);
    ElapsedBound(c.at, i.degradedAt);
    ElapsedBound(c.at, i.recoveringAt);
    if FailsOver(m, c) {
      SpacedNext(times, Gap(m.policy), c.at);
    } else {
      assert times + [] == times;
    }
  }

  lemma {:induction false} RunSteady(p: Policy, start: nat, calls: seq<Call>) returns (i: Instants)
    requires InOrder(start, calls)
    ensures var m := Initialized(p, Low32(start));
            var v, times := Run(m, calls), Failovers(m, calls);
            && Steady(v, i, if calls == [] then start else calls[|calls| - 1].at, times)
            && v.policy == Effective(p) && v.metrics.failovers == Low32(|times|)
  {
    var m := Initialized(p, Low32(start));
    if calls == [] {
      i := Instants(start, 0, 0);
    } else {
      var past, c := calls[..|calls| - 1], calls[|calls| - 1];
      var j := RunSteady(p, start, past);
      var now := if past == [] then start else past[|past| - 1].at;
      assert past != [] ==> past[|past| - 1] == calls[|past| - 1];
      hide Steady, Apply, FailsOver, Initialized, Effective;
      i := InstantsAfter(Run(m, past), j, c);
      hide InstantsAfter;
      StepSteady(Run(m, past), j, now, Failovers(m, past), c);
      CounterStep(Run(m, past), c, |Failovers(m, past)|);
    }
  }

  /**
   * Anti-flapping: in every sequential run from initialization, whatever packets arrive and however
   * often a reconnect is forced, any two failovers are at least min(hysteresis, failover delay)
   * milliseconds apart in true time, even across clock wraps; and the counter counts them.
   */
  lemma FailoversSpaced(p: Policy, start: nat, calls: seq<Call>)
    requires InOrder(start, calls)
    ensures var m := Initialized(p, Low32(start));
            var times := Failovers(m, calls);
            var delay := if p.failoverDelay == 0 then 5000 else p.failoverDelay;
            var hysteresis := if p.hysteresis == 0 then 15000 else p.hysteresis;
            var gap := if hysteresis < delay then hysteresis else delay;
            && (forall i, j :: 0 <= i < j < |times| ==> times[i] + gap <= times[j])
            && Run(m, calls).metrics.failovers == Low32(|times|)
  {
    var i := RunSteady(p, start, calls);
    hide Run, Failovers, Initialized;
  }

  lemma CounterStep(m: Machine, c: Call, n: nat)
    requires m.metrics.failovers == Low32(n)
    ensures Apply(m, c).metrics.failovers == Low32(n + if FailsOver(m, c) then 1 else 0)
  {
    Low32Add(n, 1);
  }

  /** A gateway, or a node without a fallback, never fails over. */
  lemma {:induction false} GatewayNeverFailsOver(p: Policy, start: nat, calls: seq<Call>)
    requires p.gateway || p.fallback == PROFILE_NONE
    ensures Failovers(Initialized(p, Low32(start)), calls) == []
    ensures Run(Initialized(p, Low32(start)), calls).policy == Effective(p)
    ensures Run(Initialized(p, Low32(start)), calls).state in {Connecting, Connected}
  {
    if calls != [] { GatewayNeverFailsOver(p, start, calls[..|calls| - 1]); }
  }

  /** The reported transport is the fallback in DEGRADED and the primary in every other state, none if unknown. */
  lemma {:induction false} TransportMatchesState(p: Policy, start: nat, calls: seq<Call>)
    ensures var v := Run(Initialized(p, Low32(start)), calls);
            var t := if v.state == Degraded then p.fallback else p.primary;
            && v.policy == Effective(p)
            && v.metrics.active == if t <= 3 then t else 0
  {
    if calls != [] { TransportMatchesState(p, start, calls[..|calls| - 1]); }
  }

  /** A machine starts connecting, with nothing counted and zeros of the profile replaced by 5 and 15 seconds. */
  lemma StartsConnecting(p: Policy, t: u32)
    ensures var m := Initialized(p, t);
            && m.state == Connecting && m.lastOk == t && m.metrics.current == Connecting
            && m.metrics.sent == m.metrics.received == m.metrics.drops == m.metrics.failovers == 0
            && m.policy == Policy(p.primary, p.fallback, if p.failoverDelay == 0 then 5000 else p.failoverDelay,
                                  if p.hysteresis == 0 then 15000 else p.hysteresis, p.gateway)
  {
  }

  /**
   * Below one clock wrap of silence, a connected field node fails over exactly when it has heard nothing
   * for longer than the delay.
   */
  lemma FailoverIsDue(m: Machine, lastOk: nat, at: nat, ready: bool)
    requires lastOk <= at < lastOk + TWO32 && m.lastOk == Low32(lastOk) && m.state == Connected
    requires !m.policy.gateway && m.policy.fallback != PROFILE_NONE
    ensures FailsOver(m, Call(at, Process(ready))) <==> at - lastOk > m.policy.failoverDelay
  {
    ElapsedBound(at, lastOk);
  }

  /** The instants that the present state is timed by lie less than one clock wrap back. */
  predicate Recent(m: Machine, i: Instants, at: nat) {
    && Behind(m, i, at)
    && (m.state in {Connected, Recovering} ==> at - i.lastOk < TWO32)
    && (m.state == Degraded ==> at - i.degradedAt < TWO32)
    && (m.state == Recovering ==> at - i.recoveringAt < TWO32)
  }

  /** Where each state goes when the machine is processed at true time `at`, and when it may leave. */
  lemma ProcessMoves(m: Machine, i: Instants, at: nat, ready: bool)
    requires Recent(m, i, at)
    ensures var n, delay := Apply(m, Call(at, Process(ready))), m.policy.failoverDelay;
            && (m.state == Disconnected ==> n.state == if ready then Connecting else Disconnected)
            && (m.state == Connecting ==> n.state == if ready then Connected else Connecting)
            && (m.state == Connected ==>
                  n.state == if !m.policy.gateway && m.policy.fallback != 0 && at - i.lastOk > delay
                             then Degraded else Connected)
            && (m.state == Degraded ==>
                  n.state == if at - i.degradedAt >= m.policy.hysteresis then Recovering else Degraded)
            && (m.state == Recovering ==>
                  n.state == if ready && at - i.lastOk < delay then Connected
                             else if at - i.recoveringAt > delay / 2 then Degraded else Recovering)
            && n.metrics.current == n.state
            && n.lastOk == (if m.state == Connecting && ready then Low32(at) else m.lastOk)
            && n.degradedAt == (if n.state == Degraded && m.state != Degraded then Low32(at) else m.degradedAt)
            && n.recoveringAt == (if n.state == Recovering && m.state != Recovering then Low32(at) else m.recoveringAt)
  {
    ElapsedBound(at, i.lastOk);
    ElapsedBound(at, i.degradedAt);
    ElapsedBound(at, i.recoveringAt);
  }

  /** Only processing and a forced reconnect move the machine; a received packet is a sign of life. */
  lemma OtherCallsMove(m: Machine, c: Call)
    requires !c.op.Process?
    ensures var n := Apply(m, c);
            && n.state == (if c.op.ForceReconnect? then Connecting else m.state)
            && n.lastOk == (if c.op.ForceReconnect? || c.op.rx then Low32(c.at) else m.lastOk)
            && n.degradedAt == m.degradedAt && n.recoveringAt == m.recoveringAt && n.policy == m.policy
  {
  }

  /** The machine entered DEGRADED at call `k` of the run and has been in it since. */
  predicate DegradedSince(m: Machine, calls: seq<Call>, k: nat) {
    && k < |calls| && Run(m, calls[..k]).state != Degraded
    && forall j :: k < j <= |calls| ==> Run(m, calls[..j]).state == Degraded
  }

  lemma {:induction false} DegradedFrom(m: Machine, calls: seq<Call>, k: nat)
    requires DegradedSince(m, calls, k)
    ensures Run(m, calls).state == Degraded && Run(m, calls).degradedAt == Low32(calls[k].at)
  {
    var past := calls[..|calls| - 1];
    assert calls[..|calls|] == calls && calls[..k] == past[..k];
    if k < |past| {
      forall j | k < j <= |past| ensures Run(m, past[..j]).state == Degraded { assert past[..j] == calls[..j]; }
      DegradedFrom(m, past, k);
    } else {
      assert past == calls[..k];
    }
  }

  /**
   * Recovery is due: a node degraded since call `k` of a run goes back to its primary at the first
   * processing a hysteresis or more after that call, and no sooner; and it is connected on the primary
   * once it then hears a packet and is processed with the transport ready before the failover delay is over.
   */
  lemma RecoveryIsDue(p: Policy, start: nat, calls: seq<Call>, k: nat, at: nat, ready: bool, heard: Call, last: nat)
    requires DegradedSince(Initialized(p, Low32(start)), calls, k) && calls[k].at <= at < calls[k].at + TWO32
    requires at <= heard.at <= last < heard.at + TWO32 && heard.op.Packet? && heard.op.rx
    ensures var v := Run(Initialized(p, Low32(start)), calls);
            var n := Apply(v, Call(at, Process(ready)));
            var hysteresis := if p.hysteresis == 0 then 15000 else p.hysteresis;
            var delay := if p.failoverDelay == 0 then 5000 else p.failoverDelay;
            if at - calls[k].at >= hysteresis then
              && n.state == Recovering && n.metrics.active == (if p.primary <= 3 then p.primary else 0)
              && var z := Apply(Apply(n, heard), Call(last, Process(true)));
                 last - heard.at < delay ==> z.state == Connected && z.metrics.active == n.metrics.active
            else n.state == Degraded && n.metrics.active == if p.fallback <= 3 then p.fallback else 0
  {
    var m := Initialized(p, Low32(start));
    DegradedFrom(m, calls, k);
    TransportMatchesState(p, start, calls);
    hide Run, Initialized, DegradedSince;
    ElapsedBound(at, calls[k].at);
    ElapsedBound(last, heard.at);
  }

  // ---------------------------------------------------------------------------
  // The counters
  // ---------------------------------------------------------------------------

  predicate IsReceived(op: Op) {
    op.Packet? && op.rx
  }

  predicate IsSent(op: Op) {
    op.Packet? && !op.rx
  }

  predicate IsDropped(op: Op) {
    op.Packet? && !op.rx && !op.success
  }

  function Count(calls: seq<Call>, kind: Op -> bool): nat {
    if calls == [] then 0
    else Count(calls[..|calls| - 1], kind) + if kind(calls[|calls| - 1].op) then 1 else 0
  }

  /** The round trip a call reports, 0 if none. */
  function RoundTrip(c: Call): u32 {
    if c.op.Packet? then c.op.rtt else 0
  }

  /** Packets received, sent and dropped are counted modulo 2^32; the jitter is the longest round trip. */
  lemma {:induction false} CountersCount(p: Policy, start: nat, calls: seq<Call>)
    ensures var c := Run(Initialized(p, Low32(start)), calls).metrics;
            && c.received == Low32(Count(calls, IsReceived)) && c.sent == Low32(Count(calls, IsSent))
            && c.drops == Low32(Count(calls, IsDropped))
            && (forall k :: 0 <= k < |calls| ==> RoundTrip(calls[k]) <= c.maxJitter)
            && (c.maxJitter != 0 ==> exists k :: 0 <= k < |calls| && RoundTrip(calls[k]) == c.maxJitter)
            && c.lastRtt == LastRoundTrip(calls)
  {
    if calls != [] {
      var past, c := calls[..|calls| - 1], calls[|calls| - 1];
      CountersCount(p, start, past);
      var v := Run(Initialized(p, Low32(start)), past);
      hide Run, Initialized;
      Low32Add(Count(past, IsReceived), 1);
      Low32Add(Count(past, IsSent), 1);
      Low32Add(Count(past, IsDropped), 1);
      hide Low32;
      MetricsStep(v, c);
      forall k | 0 <= k < |calls| ensures RoundTrip(calls[k]) <= Apply(v, c).metrics.maxJitter {
        if k < |past| { assert past[k] == calls[k]; }
      }
    }
  }

  /** The last round trip that was not 0, if there was one. */
  function LastRoundTrip(calls: seq<Call>): u32 {
    if calls == [] then 0
    else if RoundTrip(calls[|calls| - 1]) != 0 then RoundTrip(calls[|calls| - 1])
    else LastRoundTrip(calls[..|calls| - 1])
  }

  lemma MetricsStep(m: Machine, c: Call)
    ensures var n, o := Apply(m, c).metrics, m.metrics;
            && n.received == (if IsReceived(c.op) then Add32(o.received, 1) else o.received)
            && n.sent == (if IsSent(c.op) then Add32(o.sent, 1) else o.sent)
            && n.drops == (if IsDropped(c.op) then Add32(o.drops, 1) else o.drops)
            && n.maxJitter == (if RoundTrip(c) > o.maxJitter then RoundTrip(c) else o.maxJitter)
            && n.lastRtt == (if RoundTrip(c) != 0 then RoundTrip(c) else o.lastRtt)
  {
  }

  class NetworkV1 {
    var initialized: bool
    var state: State
    var policy: Policy
    var metrics: Metrics
    var lastOk: u32
    var degradedAt: u32
    var recoveringAt: u32
    /** The calls to the transport layer, oldest first. */
    var selected: seq<u8>

    ghost function View(): Machine
      reads this
    {
      Machine(state, policy, metrics, lastOk, degradedAt, recoveringAt)
    }

    constructor ()
      ensures !initialized && selected == []
    {
      initialized := false;
      state := Disconnected;
      policy := Policy(PROFILE_WIFI, PROFILE_RS485, DEFAULT_FAILOVER_MS, DEFAULT_HYSTERESIS_MS, false);
      metrics := NO_METRICS;
      lastOk, degradedAt, recoveringAt, selected := 0, 0, 0, [];
    }

    /** `profile` is the active profile's network policy, if it has one. */
    method Init(profile: Policy, hasProfile: bool, t: u32)
      modifies this
      ensures initialized && selected == old(selected)
      ensures old(initialized) ==> View() == old(View())
      ensures !old(initialized) ==>
                View() == Initialized(if hasProfile then profile else old(policy), t)
                  .(degradedAt := old(degradedAt), recoveringAt := old(recoveringAt))
    {
      if initialized {
        return;
      }
      if hasProfile {
        policy := profile;
      }
      if policy.failoverDelay == 0 {
        policy := policy.(failoverDelay := DEFAULT_FAILOVER_MS);
      }
      if policy.hysteresis == 0 {
        policy := policy.(hysteresis := DEFAULT_HYSTERESIS_MS);
      }
      metrics := NO_METRICS.(active := MapTransport(policy.primary), current := Connecting);
      state := Connecting;
      lastOk := t;
      initialized := true;
    }

    /** `endap_network_v1_process`, which initializes the machine on its first call. */
    method Process(profile: Policy, hasProfile: bool, t: u32, ready: bool)
      modifies this
      ensures initialized
      ensures old(initialized) ==> View() == Processed(old(View()), t, ready)
      ensures !old(initialized) ==>
                View() == Processed(Initialized(if hasProfile then profile else old(policy), t)
                            .(degradedAt := old(degradedAt), recoveringAt := old(recoveringAt)), t, ready)
      ensures selected == old(selected) +
                if old(initialized) &&
                   (metrics.active != old(metrics).active || (state == Degraded) != (old(state) == Degraded))
                then [metrics.active] else []
    {
      Init(profile, hasProfile, t);
      ProcessOnce(t, ready);
    }

    method Select(transport: u8)
      modifies this`metrics, this`selected
      ensures View() == Switch(old(View()), transport) && selected == old(selected) + [MapTransport(transport)]
    {
      var mapped := MapTransport(transport);
      metrics := metrics.(active := mapped);
      selected := selected + [mapped];
    }

    /** One pass of the machine, once initialized. */
    method ProcessOnce(t: u32, ready: bool)
      requires initialized
      modifies this
      ensures initialized && View() == Processed(old(View()), t, ready)
      ensures selected == old(selected) +
                if metrics.active != old(metrics).active || (state == Degraded) != (old(state) == Degraded)
                then [metrics.active] else []
      ensures old(state) == Connecting ==> selected == old(selected)
    {
      match state {
      case Disconnected =>
        if ready { state := Connecting; }
      case Connecting =>
        if ready {
          state := Connected;
          lastOk := t;
        }
      case Connected =>
        var quiet := Sub32(t, lastOk);
        if !policy.gateway && quiet > policy.failoverDelay && policy.fallback != PROFILE_NONE {
          state := Degraded;
          degradedAt := t;
          metrics := metrics.(failovers := Add32(metrics.failovers, 1));
          Select(policy.fallback);
        }
      case Degraded =>
        var degradedFor := Sub32(t, degradedAt);
        if degradedFor >= policy.hysteresis {
          state := Recovering;
          recoveringAt := t;
          Select(policy.primary);
        }
      case Recovering =>
        var recoveringFor := Sub32(t, recoveringAt);
        if ready && Sub32(t, lastOk) < policy.failoverDelay {
          state := Connected;
        } else if recoveringFor > policy.failoverDelay / 2 {
          state := Degraded;
          degradedAt := t;
          Select(policy.fallback);
        }
      }
      metrics := metrics.(current := state);
    }

    method NotePacket(t: u32, rx: bool, success: bool, rtt: u32)
      modifies this`metrics, this`lastOk
      ensures View() == Noted(old(View()), t, rx, success, rtt)
    {
      if rx {
        metrics := metrics.(received := Add32(metrics.received, 1));
        lastOk := t;
      } else {
        metrics := metrics.(sent := Add32(metrics.sent, 1));
        if !success {
          metrics := metrics.(drops := Add32(metrics.drops, 1));
        }
      }
      if rtt > 0 {
        metrics := metrics.(lastRtt := rtt);
        if rtt > metrics.maxJitter {
          metrics := metrics.(maxJitter := rtt);
        }
      }
    }

    method ForceReconnect(t: u32)
      modifies this
      ensures View() == Reconnected(old(View()), t) && initialized == old(initialized)
      ensures selected == old(selected) + [MapTransport(policy.primary)]
    {
      state := Connecting;
      lastOk := t;
      Select(policy.primary);
    }
  }
}
