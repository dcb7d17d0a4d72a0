/** Fail-safe policies of the outputs, and the guard every command passes before it reaches an output. */
module FailSafe {
  import opened Words
  import opened EventBus
  import opened StateStore

  const MAX_OUTPUTS: nat := 16

  const FORCE_OFF: u8 := 0
  const FORCE_ON: u8 := 1
  const HOLD_LAST: u8 := 2
  const RESTORE_SNAPSHOT: u8 := 3
  const SAFE_VALUE: u8 := 4
  const ACTION_MAX: u8 := 5

  const AUTO: u8 := 0
  const MANUAL: u8 := 1
  const RECOVERY_MAX: u8 := 2

  const NONE: u8 := 0
  const BOOT: u8 := 1
  const COMM_LOSS: u8 := 2
  const RUNTIME_FAULT: u8 := 3
  const WATCHDOG: u8 := 4
  const NODE_OFFLINE: u8 := 5
  const NODE_REVOKED: u8 := 6
  const UNAUTHORIZED: u8 := 7
  const CONFIG_INVALID: u8 := 8
  const MANUAL_TEST: u8 := 9
  const REASON_MAX: u8 := 10

  datatype Policy = Policy(output: u16, enabled: bool, boot: u8, commLoss: u8, runtimeFault: u8,
                           recovery: u8, safeValue: i32)

  datatype Entry = Entry(policy: Policy, active: bool, lastReason: u8, lastApplied: i32)

  function DefaultEntry(output: u16): Entry {
    Entry(Policy(output, true, FORCE_OFF, FORCE_OFF, FORCE_OFF, AUTO, 0), false, NONE, 0)
  }

  predicate IsDefault(e: Entry) {
    e.policy.output != 0 && e == DefaultEntry(e.policy.output)
  }

  function Binary(v: i32): i32 {
    if v != 0 then 1 else 0
  }

  function ApplyAction(action: u8, current: i32, snapshot: i32, safe: i32): i32 {
    if action == FORCE_ON then 1
    else if action == HOLD_LAST then Binary(current)
    else if action == RESTORE_SNAPSHOT then Binary(snapshot)
    else if action == SAFE_VALUE then Binary(safe)
    else 0
  }

  function ActionFor(p: Policy, reason: u8): u8 {
    if reason == BOOT then p.boot
    else if reason in {COMM_LOSS, NODE_OFFLINE, NODE_REVOKED, UNAUTHORIZED} then p.commLoss
    else if reason in {RUNTIME_FAULT, WATCHDOG, CONFIG_INVALID, MANUAL_TEST} then p.runtimeFault
    else HOLD_LAST
  }

  predicate Manual(e: Entry) {
    e.policy.recovery == MANUAL
  }

  predicate Blocks(e: Entry) {
    e.policy.enabled && e.active && Manual(e)
  }

  predicate ValidReason(reason: u8) {
    NONE < reason < REASON_MAX
  }

  function Find(guards: seq<Entry>, output: u16): (k: nat)
    ensures k <= |guards|
    ensures k < |guards| ==> guards[k].policy.output == output
    ensures forall j :: 0 <= j < k ==> guards[j].policy.output != output
    decreases |guards|
  {
    if guards == [] then 0
    else if guards[0].policy.output == output then 0
    else 1 + Find(guards[1..], output)
  }

  /** The state store with its bus, and the fail-safe entries of the outputs. */
  datatype Plant = Plant(store: Store, guards: seq<Entry>)
  {
    ghost predicate Valid() {
      store.Valid() && |guards| <= MAX_OUTPUTS
    }

    predicate Known(output: u16) {
      Find(guards, output) < |guards|
    }

    function At(output: u16): Entry
      requires Known(output)
    {
      guards[Find(guards, output)]
    }

    /** The output is latched: no command may change it until it is re-armed. */
    predicate Latched(output: u16) {
      Known(output) && Blocks(At(output))
    }

    function Put(output: u16, e: Entry): Plant
      requires Known(output)
    {
      this.(guards := guards[Find(guards, output) := e])
    }

    /** `failsafe_guard_command`: whether the command may pass. */
    predicate Allows(output: u16) {
      Known(output) && !Latched(output)
    }

    function Guard(output: u16, v: i32): Plant {
      if Allows(output) then Put(output, At(output).(lastApplied := Binary(v))) else this
    }

    /** A command that passes the guard is written, reduced to 0 or 1. */
    function Command(output: u16, v: i32): Plant {
      if Allows(output) then
        var p := Guard(output, v);
        p.(store := p.store.Write(output, Binary(v)))
      else this
    }

    /** The entry after a trigger, given the output's present value. */
    static function Triggered(e: Entry, reason: u8, current: i32): Entry {
      e.(lastApplied := Binary(ApplyAction(ActionFor(e.policy, reason), current, current, e.policy.safeValue)),
         lastReason := reason, active := Manual(e))
    }

    predicate Triggers(output: u16, reason: u8) {
      Known(output) && At(output).policy.enabled && ValidReason(reason)
    }

    function ApplyReason(output: u16, reason: u8): Plant {
      if Triggers(output, reason) then Put(output, Triggered(At(output), reason, store.Read(output))) else this
    }

    /** One turn of `failsafe_apply_for_reason_all`: trigger entry `i`'s output and write its safe value. */
    function Secure(i: nat, reason: u8): Plant
      requires i < |guards|
    {
      var output := guards[i].policy.output;
      if Triggers(output, reason) then
        var safe := Triggered(At(output), reason, store.Read(output)).lastApplied;
        ApplyReason(output, reason).(store := store.Write(output, safe))
      else this
    }

    function SecureUpto(k: nat, reason: u8): (p: Plant)
      requires k <= |guards|
      ensures |p.guards| == |guards|
    {
      if k == 0 then this else SecureUpto(k - 1, reason).Secure(k - 1, reason)
    }

    function Rearm(output: u16): Plant {
      if Known(output) then Put(output, At(output).(active := false, lastReason := NONE)) else this
    }

    static predicate ValidPolicy(p: Policy) {
      p.boot < ACTION_MAX && p.commLoss < ACTION_MAX && p.runtimeFault < ACTION_MAX && p.recovery < RECOVERY_MAX
    }

    /** `failsafe_set_output_policy`: the new policy replaces the old; disabling also clears the latch. */
    function SetPolicy(next: Policy): Plant {
      var p := next.(safeValue := Binary(next.safeValue));
      if !Known(next.output) || !ValidPolicy(next) || At(next.output).policy == p then this
      else
        var e := At(next.output).(policy := p);
        Put(next.output, if p.enabled then e else e.(active := false, lastReason := NONE))
    }
  }

  /** Updating the entry found for an output keeps every lookup where it was. */
  lemma PutKeepsLookups(p: Plant, output: u16, e: Entry, other: u16)
    requires p.Known(output) && e.policy.output == output
    ensures Find(p.Put(output, e).guards, other) == Find(p.guards, other)
    ensures p.Put(output, e).Known(output) && p.Put(output, e).At(output) == e
    ensures other != output && p.Known(other) ==> p.Put(output, e).At(other) == p.At(other)
  {
    hide Find;
    var q := p.Put(output, e);
    FindUnique(q.guards, other, Find(p.guards, other));
    FindUnique(q.guards, output, Find(p.guards, output));
  }

  lemma FindUnique(guards: seq<Entry>, output: u16, k: nat)
    requires k <= |guards|
    requires k < |guards| ==> guards[k].policy.output == output
    requires forall j :: 0 <= j < k ==> guards[j].policy.output != output
    ensures Find(guards, output) == k
  {
    hide Find;
  }

  /** A command to any output leaves a latched output's value and latch alone. */
  lemma CommandRespectsLatch(p: Plant, output: u16, v: i32, latched: u16)
    requires p.Valid() && p.Latched(latched)
    ensures p.Command(output, v).Valid()
    ensures p.Command(output, v).Latched(latched)
    ensures p.Command(output, v).store.Read(latched) == p.store.Read(latched)
  {
    hide Find;
    if p.Allows(output) {
      PutKeepsLookups(p, output, p.At(output).(lastApplied := Binary(v)), latched);
    }
  }

  /**
   * A command is refused exactly for an output without an entry or with an enabled, active entry of
   * manual recovery; otherwise it sets the output to 0 or 1 and records it. It touches nothing else.
   */
  lemma CommandWritesBinary(p: Plant, output: u16, v: i32, other: u16)
    requires p.Valid() && output < MAX_ENTRIES
    ensures var q := p.Command(output, v);
            if p.Known(output) &&
               !(p.At(output).policy.enabled && p.At(output).active && p.At(output).policy.recovery == MANUAL)
            then
              && q.store.Read(output) == (if v == 0 then 0 else 1)
              && q.Known(output) && q.At(output) == p.At(output).(lastApplied := if v == 0 then 0 else 1)
              && (other != output ==> q.store.Read(other) == p.store.Read(other))
              && (other != output && p.Known(other) ==> q.Known(other) && q.At(other) == p.At(other))
            else q == p
  {
    hide Find;
    if p.Allows(output) {
      PutKeepsLookups(p, output, p.At(output).(lastApplied := Binary(v)), output);
      PutKeepsLookups(p, output, p.At(output).(lastApplied := Binary(v)), other);
    }
  }

  /** Where a trigger for `reason` sends the output. */
  function SafeTarget(p: Plant, output: u16, reason: u8): i32
    requires p.Known(output)
  {
    Plant.Triggered(p.At(output), reason, p.store.Read(output)).lastApplied
  }

  /** The first `k` entries hold one for `output`. */
  predicate Reached(p: Plant, output: u16, k: nat) {
    Find(p.guards, output) < k <= |p.guards|
  }

  lemma SecureUptoNext(p: Plant, i: nat, reason: u8)
    requires i < |p.guards|
    ensures p.SecureUpto(i + 1, reason) == p.SecureUpto(i, reason).Secure(i, reason)
  {
  }

  lemma SecureValid(p: Plant, i: nat, reason: u8)
    requires p.Valid() && i < |p.guards|
    ensures p.Secure(i, reason).Valid()
  {
    hide Find, Plant.Triggered;
  }

  lemma {:induction false} SecureUptoValid(p: Plant, k: nat, reason: u8)
    requires p.Valid() && k <= |p.guards|
    ensures p.SecureUpto(k, reason).Valid()
  {
    hide Plant.Secure, Plant.Valid;
    if k > 0 {
      SecureUptoValid(p, k - 1, reason);
      SecureValid(p.SecureUpto(k - 1, reason), k - 1, reason);
    }
  }

  /** Lookups and policies are as they were. */
  ghost predicate SameTable(p: Plant, q: Plant) {
    && |q.guards| == |p.guards|
    && (forall i :: 0 <= i < |p.guards| ==> q.guards[i].policy == p.guards[i].policy)
    && (forall id: u16 :: Find(q.guards, id) == Find(p.guards, id))
  }

  /** The output was triggered: its entry says so and its value is the safe value. */
  ghost predicate Secured(p: Plant, q: Plant, output: u16, reason: u8) {
    && p.Known(output) && q.Known(output)
    && q.At(output) == Plant.Triggered(p.At(output), reason, p.store.Read(output))
    && q.store.Read(output) == SafeTarget(p, output, reason)
  }

  /** The output's entry and value are as they were. */
  ghost predicate Untouched(p: Plant, q: Plant, output: u16) {
    && q.Known(output) == p.Known(output)
    && (p.Known(output) ==> q.At(output) == p.At(output))
    && q.store.Read(output) == p.store.Read(output)
  }

  /** What one turn does to any one output. */
  lemma SecureSettles(p: Plant, i: nat, reason: u8, output: u16)
    requires p.Valid() && ValidReason(reason) && i < |p.guards| && output < MAX_ENTRIES
    ensures p.Secure(i, reason).Valid() && SameTable(p, p.Secure(i, reason))
    ensures if output == p.guards[i].policy.output && p.Triggers(output, reason)
            then Secured(p, p.Secure(i, reason), output, reason)
            else Untouched(p, p.Secure(i, reason), output)
  {
    hide Find;
    var id := p.guards[i].policy.output;
    var q := p.Secure(i, reason);
    if p.Triggers(id, reason) {
      var e := Plant.Triggered(p.At(id), reason, p.store.Read(id));
      forall other: u16 ensures Find(q.guards, other) == Find(p.guards, other) {
        PutKeepsLookups(p, id, e, other);
      }
      PutKeepsLookups(p, id, e, output);
    }
  }

  /** Securing an output again for the same reason changes neither its entry nor its value. */
  lemma SecuredTwice(p: Plant, q: Plant, r: Plant, output: u16, reason: u8)
    requires Secured(p, q, output, reason)
    requires Secured(q, r, output, reason) || Untouched(q, r, output)
    ensures Secured(p, r, output, reason)
  {
  }

  lemma UntouchedThen(p: Plant, q: Plant, r: Plant, output: u16, reason: u8)
    requires Untouched(p, q, output)
    ensures Untouched(q, r, output) ==> Untouched(p, r, output)
    ensures Secured(q, r, output, reason) ==> Secured(p, r, output, reason)
  {
  }

  /** What securing the first `k` entries does to any one output. */
  lemma {:induction false} SecureUptoSettles(p: Plant, k: nat, reason: u8, output: u16)
    requires p.Valid() && ValidReason(reason) && k <= |p.guards| && output < MAX_ENTRIES
    ensures p.SecureUpto(k, reason).Valid() && SameTable(p, p.SecureUpto(k, reason))
    ensures if Reached(p, output, k) && p.Triggers(output, reason)
            then Secured(p, p.SecureUpto(k, reason), output, reason)
            else Untouched(p, p.SecureUpto(k, reason), output)
  {
    hide *;
    if k == 0 {
      SecureNone(p, reason, output);
    } else {
      SecureUptoSettles(p, k - 1, reason, output);
      SecureUptoNext(p, k - 1, reason);
      var q := p.SecureUpto(k - 1, reason);
      SecuredChainLength(p, q);
      SecureSettles(q, k - 1, reason, output);
      SecuredChain(p, q, q.Secure(k - 1, reason), k, reason, output);
    }
  }

  lemma SecureNone(p: Plant, reason: u8, output: u16)
    ensures p.SecureUpto(0, reason) == p && SameTable(p, p) && (p.Valid() ==> p.SecureUpto(0, reason).Valid())
    ensures !Reached(p, output, 0) && Untouched(p, p, output)
  {
  }

  lemma SecuredChainLength(p: Plant, q: Plant)
    requires SameTable(p, q)
    ensures |q.guards| == |p.guards|
  {
  }

  /** The inductive step of `SecureUptoSettles`. */
  lemma SecuredChain(p: Plant, q: Plant, r: Plant, k: nat, reason: u8, output: u16)
    requires 0 < k <= |p.guards| && SameTable(p, q) && SameTable(q, r)
    requires if Reached(p, output, k - 1) && p.Triggers(output, reason)
             then Secured(p, q, output, reason) else Untouched(p, q, output)
    requires if output == q.guards[k - 1].policy.output && q.Triggers(output, reason)
             then Secured(q, r, output, reason) else Untouched(q, r, output)
    ensures SameTable(p, r)
    ensures if Reached(p, output, k) && p.Triggers(output, reason)
            then Secured(p, r, output, reason) else Untouched(p, r, output)
  {
    hide Secured, Untouched, SafeTarget;
    if Reached(p, output, k - 1) && p.Triggers(output, reason) {
      SecuredTwice(p, q, r, output, reason);
    } else {
      UntouchedThen(p, q, r, output, reason);
    }
  }

  /** An action sends an output that reads `present` to `target`: forced, held, or to the policy's safe value. */
  predicate Gives(action: u8, present: i32, safe: i32, target: i32) {
    && target in {0, 1}
    && (target == 1 <==> action == FORCE_ON ||
                         (action in {HOLD_LAST, RESTORE_SNAPSHOT} && present != 0) ||
                         (action == SAFE_VALUE && safe != 0))
  }

  /**
   * Where a policy sends an output that reads `present`: its action for a boot, its action for a lost
   * or untrusted peer, or its action for a fault of the node itself.
   */
  predicate SendsTo(p: Policy, reason: u8, present: i32, target: i32) {
    && (reason == BOOT ==> Gives(p.boot, present, p.safeValue, target))
    && (reason in {COMM_LOSS, NODE_OFFLINE, NODE_REVOKED, UNAUTHORIZED} ==>
          Gives(p.commLoss, present, p.safeValue, target))
    && (reason in {RUNTIME_FAULT, WATCHDOG, CONFIG_INVALID, MANUAL_TEST} ==>
          Gives(p.runtimeFault, present, p.safeValue, target))
  }

  /** The safe value is the one value the policy's action for the reason gives. */
  lemma SafeTargetMeaning(p: Plant, output: u16, reason: u8, target: i32)
    requires p.Known(output) && ValidReason(reason)
    ensures SafeTarget(p, output, reason) == target <==>
            SendsTo(p.At(output).policy, reason, p.store.Read(output), target)
  {
    hide Find;
  }

  /**
   * `failsafe_apply_for_reason_all` sends every enabled output where its policy says for the reason,
   * latches exactly the manual-recovery ones and records the value and the reason; an output without
   * an enabled entry keeps its value.
   */
  lemma ApplyAllSettles(p: Plant, reason: u8, output: u16)
    requires p.Valid() && ValidReason(reason) && output < MAX_ENTRIES
    ensures var q := p.SecureUpto(|p.guards|, reason);
            && q.Valid()
            && (p.Known(output) && p.At(output).policy.enabled ==>
                  && SendsTo(p.At(output).policy, reason, p.store.Read(output), q.store.Read(output))
                  && (q.Latched(output) <==> p.At(output).policy.recovery == MANUAL)
                  && q.Known(output)
                  && q.At(output) == Entry(p.At(output).policy, p.At(output).policy.recovery == MANUAL, reason,
                                           q.store.Read(output)))
            && (!(p.Known(output) && p.At(output).policy.enabled) ==> q.store.Read(output) == p.store.Read(output))
  {
    SecureUptoSettles(p, |p.guards|, reason, output);
    if p.Known(output) { SafeTargetMeaning(p, output, reason, SafeTarget(p, output, reason)); }
    hide Plant.SecureUpto, Find, SendsTo;
  }

  /** A trigger for one output sends it where its policy says, and latches it if its recovery is manual. */
  lemma ApplyOneSettles(p: Plant, output: u16, reason: u8)
    requires p.Valid() && ValidReason(reason) && p.Known(output) && p.At(output).policy.enabled
    ensures var q, e := p.ApplyReason(output, reason), p.At(output);
            && q.Known(output) && SendsTo(e.policy, reason, p.store.Read(output), q.At(output).lastApplied)
            && q.At(output) == Entry(e.policy, e.policy.recovery == MANUAL, reason, q.At(output).lastApplied)
            && q.store == p.store
  {
    SafeTargetMeaning(p, output, reason, SafeTarget(p, output, reason));
    PutKeepsLookups(p, output, Plant.Triggered(p.At(output), reason, p.store.Read(output)), output);
    hide Find, SendsTo;
  }

  /** Every output of a new table is sent to 0 by any trigger and never latched. */
  lemma DefaultsSwitchOff(p: Plant, output: u16, reason: u8)
    requires p.Valid() && ValidReason(reason) && output < MAX_ENTRIES
    requires p.Known(output) && p.At(output) == DefaultEntry(output)
    ensures var q := p.SecureUpto(|p.guards|, reason); q.store.Read(output) == 0 && !q.Latched(output)
  {
    ApplyAllSettles(p, reason, output);
    hide Plant.SecureUpto, Find;
  }

  /**
   * An accepted policy is the one in force, with its safe value reduced to 0 or 1; disabling the output
   * also releases it, and nothing else of any entry changes.
   */
  lemma PolicyInForce(p: Plant, next: Policy, other: u16)
    requires p.Known(next.output) && next.boot < 5 && next.commLoss < 5 && next.runtimeFault < 5 && next.recovery < 2
    ensures var q, e := p.SetPolicy(next), p.At(next.output);
            && q.store == p.store && q.Known(next.output) && (q.Known(other) <==> p.Known(other))
            && (other != next.output && p.Known(other) ==> q.At(other) == p.At(other))
            && var f := q.At(next.output);
               && f.policy == Policy(next.output, next.enabled, next.boot, next.commLoss, next.runtimeFault,
                                     next.recovery, if next.safeValue == 0 then 0 else 1)
               && f.lastApplied == e.lastApplied
               && (next.enabled || f.policy == e.policy ==> f.active == e.active && f.lastReason == e.lastReason)
               && (!next.enabled && f.policy != e.policy ==> !f.active && f.lastReason == NONE)
  {
    hide Find;
    var f := p.SetPolicy(next).guards[Find(p.guards, next.output)];
    PutKeepsLookups(p, next.output, f, next.output);
    PutKeepsLookups(p, next.output, f, other);
  }

  /** Re-arming releases the output and forgets why it was active; it touches neither its value nor any other entry. */
  lemma RearmReleases(p: Plant, output: u16, other: u16)
    requires p.Known(output)
    ensures var q := p.Rearm(output);
            && q.store == p.store && q.Known(output)
            && q.At(output) == p.At(output).(active := false, lastReason := 0)
            && (other != output && p.Known(other) ==> q.Known(other) && q.At(other) == p.At(other))
  {
    hide Find;
    PutKeepsLookups(p, output, p.At(output).(active := false, lastReason := NONE), output);
    PutKeepsLookups(p, output, p.At(output).(active := false, lastReason := NONE), other);
  }

  /** How many of the first `k` entries a trigger for `reason` applies to. */
  function TriggerCount(p: Plant, k: nat, reason: u8): nat
    requires k <= |p.guards|
  {
    if k == 0 then 0
    else TriggerCount(p, k - 1, reason) + if p.Triggers(p.guards[k - 1].policy.output, reason) then 1 else 0
  }

  /** Securing some entries changes neither whose they are nor which outputs a trigger applies to. */
  lemma TriggersStay(p: Plant, k: nat, reason: u8, i: nat)
    requires p.Valid() && k <= |p.guards| && i < |p.guards|
    ensures var q, output := p.SecureUpto(k, reason), p.guards[i].policy.output;
            q.guards[i].policy.output == output && (q.Triggers(output, reason) <==> p.Triggers(output, reason))
  {
    hide Plant.SecureUpto, Find;
    if ValidReason(reason) { SecureUptoSettles(p, k, reason, 0); } else { NothingTriggers(p, k, reason); }
  }

  lemma {:induction false} NothingTriggers(p: Plant, k: nat, reason: u8)
    requires k <= |p.guards| && !ValidReason(reason)
    ensures p.SecureUpto(k, reason) == p
  {
    hide Find;
    if k > 0 { NothingTriggers(p, k - 1, reason); }
  }

  lemma TriggerCountNext(p: Plant, k: nat, reason: u8)
    requires k < |p.guards|
    ensures TriggerCount(p, k + 1, reason) ==
            TriggerCount(p, k, reason) + if p.Triggers(p.guards[k].policy.output, reason) then 1 else 0
  {
  }

  /** One turn is a trigger for the entry's output, and a write if the trigger applies. */
  lemma SecureParts(p: Plant, i: nat, reason: u8)
    requires i < |p.guards|
    ensures var output := p.guards[i].policy.output;
            p.Secure(i, reason) ==
            if p.Triggers(output, reason)
            then p.ApplyReason(output, reason).(store := p.store.Write(output, SafeTarget(p, output, reason)))
            else p.ApplyReason(output, reason)
  {
    hide Find, Store.Write;
  }

  class FailSafeTable {
    const entries: array<Entry>
    const table: StateTable
    var count: u16

    ghost predicate Valid()
      reads this, entries, table, table.values, table.dirty, table.bus, table.bus.queue
    {
      entries.Length == MAX_OUTPUTS && count <= MAX_OUTPUTS && table.Valid()
    }

    ghost function View(): Plant
      requires count <= entries.Length
      reads this, entries, table, table.values, table.dirty, table.bus, table.bus.queue
    {
      Plant(table.View(), entries[..count])
    }

    /** `failsafe_init` for a profile with these output ids, before policies are loaded. */
    constructor (outputs: seq<u16>, table: StateTable)
      requires table.Valid()
      ensures Valid() && this.table == table && fresh(entries)
      ensures View().store == table.View()
      ensures forall id: u16 :: View().Known(id) ==> id != 0 && id in outputs && View().At(id) == DefaultEntry(id)
      ensures |outputs| <= MAX_OUTPUTS ==> forall id :: id in outputs && id != 0 ==> View().Known(id)
    {
      entries := new Entry[MAX_OUTPUTS](_ => DefaultEntry(0));
      this.table := table;
      count := 0;
      new;
      var i := 0;
      while i < |outputs| && count < MAX_OUTPUTS
        invariant 0 <= i <= |outputs| && count <= MAX_OUTPUTS && count <= i
        invariant table.View() == old(table.View()) && table.Valid()
        invariant forall e :: e in entries[..count] ==> IsDefault(e) && e.policy.output in outputs
        invariant forall j :: 0 <= j < i && outputs[j] != 0 ==> DefaultEntry(outputs[j]) in entries[..count]
      {
        var output := outputs[i];
        if output != 0 {
          entries[count] := DefaultEntry(output);
          count := count + 1;
          assert entries[..count] == entries[..count - 1] + [DefaultEntry(output)];
        }
        i := i + 1;
      }
      if |outputs| <= MAX_OUTPUTS {
        assert i == |outputs|;
        forall id | id in outputs && id != 0 ensures View().Known(id) {
          var j :| 0 <= j < |outputs| && outputs[j] == id;
          assert DefaultEntry(id) in View().guards;
        }
      }
    }

    method FindIndex(output: u16) returns (k: u16)
      requires Valid()
      ensures k <= count && k as int == Find(View().guards, output)
    {
      k := 0;
      while k < count
        invariant k <= count
        invariant forall j :: 0 <= j < k ==> entries[j].policy.output != output
      {
        if entries[k].policy.output == output {
          FindUnique(View().guards, output, k);
          return;
        }
        k := k + 1;
      }
      FindUnique(View().guards, output, k);
    }

    method GuardCommand(output: u16, v: i32) returns (allowed: bool, effective: i32)
      requires Valid()
      modifies entries
      ensures Valid() && View() == old(View()).Guard(output, v)
      ensures allowed == old(View()).Allows(output)
      ensures allowed ==> effective == Binary(v)
    {
      effective := v;
      var k := FindIndex(output);
      if k >= count {
        return false, effective;
      }
      effective := Binary(v);
      var e := entries[k];
      if e.policy.enabled && e.active && e.policy.recovery == MANUAL {
        return false, effective;
      }
      entries[k] := e.(lastApplied := Binary(v));
      allowed := true;
    }

    method ApplyForReason(output: u16, reason: u8) returns (applied: bool, safe: i32)
      requires Valid()
      modifies entries
      ensures Valid() && View() == old(View()).ApplyReason(output, reason)
      ensures applied == old(View()).Triggers(output, reason)
      ensures applied ==> safe == SafeTarget(old(View()), output, reason)
    {
      safe := 0;
      var k := FindIndex(output);
      if k >= count || !entries[k].policy.enabled || reason <= NONE || reason >= REASON_MAX {
        return false, safe;
      }
      var _, current := table.GetInt(output);
      var e := entries[k];
      var action := ActionFor(e.policy, reason);
      safe := Binary(ApplyAction(action, current, current, e.policy.safeValue));
      entries[k] := e.(lastApplied := safe, lastReason := reason, active := e.policy.recovery == MANUAL);
      applied := true;
    }

    method ApplyForReasonAll(reason: u8) returns (applied: nat)
      requires Valid()
      modifies entries, table.values, table.dirty, table.bus, table.bus.queue
      ensures Valid() && count == old(count)
      ensures View() == old(View()).SecureUpto(old(count), reason)
      ensures applied == TriggerCount(old(View()), old(count), reason)
    {
      applied := 0;
      var i: u16 := 0;
      ghost var p := View();
      while i < count
        invariant i <= count == old(count) && Valid()
        invariant p == old(View()) && View() == p.SecureUpto(i, reason)
        invariant applied == TriggerCount(p, i, reason)
      {
        hide *;
        TriggersStay(p, i, reason, i);
        TriggerCountNext(p, i, reason);
        SecureUptoNext(p, i, reason);
        var done := SecureAt(i, reason);
        if done {
          applied := applied + 1;
        }
        i := i + 1;
      }
    }

    /** One turn of the loop. */
    method SecureAt(i: u16, reason: u8) returns (done: bool)
      requires Valid() && i < count
      modifies entries, table.values, table.dirty, table.bus, table.bus.queue
      ensures Valid() && count == old(count) && |old(View()).guards| == count as int
      ensures View() == old(View()).Secure(i, reason)
      ensures done == old(View()).Triggers(old(View()).guards[i].policy.output, reason)
    {
      hide Find, Plant.Secure, Plant.ApplyReason, Plant.Triggers, SafeTarget;
      SecureParts(View(), i, reason);
      var output := entries[i].policy.output;
      var safe;
      done, safe := ApplyForReason(output, reason);
      if done {
        var _ := table.SetInt(output, safe);
      }
    }

    method Rearm(output: u16) returns (ok: bool)
      requires Valid()
      modifies entries
      ensures Valid() && View() == old(View()).Rearm(output)
      ensures ok == old(View()).Known(output)
    {
      var k := FindIndex(output);
      if k >= count {
        return false;
      }
      entries[k] := entries[k].(active := false, lastReason := NONE);
      ok := true;
    }

    /** `saved` is whether the write to flash would succeed; the policy in RAM changes either way. */
    method SetOutputPolicy(next: Policy, saved: bool) returns (ok: bool)
      requires Valid()
      modifies entries
      ensures Valid() && View() == old(View()).SetPolicy(next)
      ensures ok <==> old(View()).Known(next.output) && Plant.ValidPolicy(next) &&
                      (saved || old(View()).At(next.output).policy == next.(safeValue := Binary(next.safeValue)))
    {
      var k := FindIndex(next.output);
      if k >= count || next.boot >= ACTION_MAX || next.commLoss >= ACTION_MAX ||
         next.runtimeFault >= ACTION_MAX || next.recovery >= RECOVERY_MAX {
        return false;
      }
      var p := next.(safeValue := Binary(next.safeValue));
      if entries[k].policy == p {
        assert View() == old(View());
        return true;
      }
      entries[k] := entries[k].(policy := p);
      if !p.enabled {
        entries[k] := entries[k].(active := false, lastReason := NONE);
      }
      ok := saved;
    }
  }
}
