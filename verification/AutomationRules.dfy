/** Automation rules, interlocks, and the discipline of the rule table. */
module AutomationRules {
  import opened Words

  const MAX_RULES: nat := 16

  const OP_GT: u8 := 0
  const OP_GE: u8 := 1
  const OP_EQ: u8 := 2
  const OP_NE: u8 := 3
  const OP_LE: u8 := 4
  const OP_LT: u8 := 5
  const OP_MAX: u8 := 6

  const FOLLOW: u8 := 0
  const PULSE_MS: u8 := 1
  const ON_DELAY_MS: u8 := 2
  const OFF_DELAY_MS: u8 := 3
  const TOGGLE: u8 := 4
  const MODE_FORCE_ON: u8 := 5
  const MODE_FORCE_OFF: u8 := 6
  const MODE_MAX: u8 := 7

  datatype Rule = Rule(input: u16, output: u16, threshold: i32, op: u8, mode: u8,
                       duration: u16, onTrue: i8, onFalse: i8)

  datatype Condition = Condition(channel: u16, op: u8, target: i8)

  datatype Interlock = Interlock(enabled: bool, logicOp: u8, condCount: u8, conditions: seq<Condition>)
  {
    predicate WellFormed() {
      |conditions| == 2 && condCount <= 2
    }

    predicate Active() {
      enabled && condCount != 0
    }
  }

  /** The inputs and outputs that exist in the device's profile. */
  datatype Profile = Profile(inputs: set<u16>, outputs: set<u16>)

  const NO_CONDITION: Condition := Condition(0, 0, 0)
  const NO_INTERLOCK: Interlock := Interlock(false, 0, 0, [NO_CONDITION, NO_CONDITION])
  const NO_RULE: Rule := Rule(0, 0, 0, 0, 0, 0, 0, 0)

  predicate IsTimed(mode: u8) {
    mode == PULSE_MS || mode == ON_DELAY_MS || mode == OFF_DELAY_MS
  }

  predicate RuleValid(p: Profile, r: Rule) {
    && r.input in p.inputs
    && r.output in p.outputs
    && r.op < OP_MAX
    && r.mode < MODE_MAX
    && r.onTrue in {0, 1}
    && r.onFalse in {0, 1}
    && (IsTimed(r.mode) ==> r.duration > 0)
  }

  predicate IsForce(mode: u8) {
    mode == MODE_FORCE_ON || mode == MODE_FORCE_OFF
  }

  predicate Conflicts(existing: Rule, candidate: Rule) {
    if existing.output != candidate.output || existing == candidate then
      false
    else if IsForce(existing.mode) && IsForce(candidate.mode) then
      existing.mode == candidate.mode
    else
      true
  }

  function EvalOp(op: u8, value: i32, target: i32): bool {
    match op
    case 0 => value > target
    case 1 => value >= target
    case 2 => value == target
    case 3 => value != target
    case 4 => value <= target
    case 5 => value < target
    case _ => false
  }

  predicate AllValid(p: Profile, rules: seq<Rule>) {
    forall i :: 0 <= i < |rules| ==> RuleValid(p, rules[i])
  }

  predicate ConflictFree(rules: seq<Rule>) {
    forall i, j :: 0 <= i < j < |rules| ==> !Conflicts(rules[i], rules[j])
  }

  predicate Distinct(rules: seq<Rule>) {
    forall i, j :: 0 <= i < j < |rules| ==> rules[i] != rules[j]
  }

  /** What every table built by add, remove and clear satisfies. */
  predicate Disciplined(p: Profile, rules: seq<Rule>) {
    |rules| <= MAX_RULES && AllValid(p, rules) && ConflictFree(rules) && Distinct(rules)
  }

  /** No two rules of a disciplined table drive one output, unless they are the two opposite forces. */
  lemma SharedOutputIsForcePair(p: Profile, rules: seq<Rule>, i: nat, j: nat)
    requires Disciplined(p, rules)
    requires i < |rules| && j < |rules| && i != j
    requires rules[i].output == rules[j].output
    ensures {rules[i].mode, rules[j].mode} == {MODE_FORCE_ON, MODE_FORCE_OFF}
  {
    var lo, hi := if i < j then i else j, if i < j then j else i;
    assert !Conflicts(rules[lo], rules[hi]) && rules[lo] != rules[hi];
  }

  /** So an output has at most two rules. */
  lemma AtMostTwoRulesPerOutput(p: Profile, rules: seq<Rule>, i: nat, j: nat, k: nat)
    requires Disciplined(p, rules)
    requires i < j < k < |rules|
    requires rules[i].output == rules[j].output
    ensures rules[k].output != rules[i].output
  {
    if rules[k].output == rules[i].output {
      SharedOutputIsForcePair(p, rules, i, j);
      SharedOutputIsForcePair(p, rules, j, k);
      SharedOutputIsForcePair(p, rules, i, k);
      assert false;
    }
  }

  datatype AddResult = Ok | Duplicate | Full | Invalid | Conflict

  /** The verdict on a candidate, independent of the order in which the table is searched. */
  function AddVerdict(p: Profile, rules: seq<Rule>, candidate: Rule): AddResult {
    if !RuleValid(p, candidate) then Invalid
    else if candidate in rules then Duplicate
    else if exists i :: 0 <= i < |rules| && Conflicts(rules[i], candidate) then Conflict
    else if |rules| >= MAX_RULES then Full
    else Ok
  }

  /** A candidate is accepted exactly when the table extended with it is still disciplined. */
  lemma AcceptedIffDisciplined(p: Profile, rules: seq<Rule>, candidate: Rule)
    requires Disciplined(p, rules)
    ensures AddVerdict(p, rules, candidate) == Ok <==> Disciplined(p, rules + [candidate])
  {
    var t := rules + [candidate];
    if Disciplined(p, t) {
      assert t[|rules|] == candidate;
      forall i | 0 <= i < |rules|
        ensures rules[i] != candidate && !Conflicts(rules[i], candidate)
      {
        assert t[i] == rules[i];
      }
    }
  }

  /** Removing a rule keeps the discipline. */
  lemma RemovalKeepsDiscipline(p: Profile, rules: seq<Rule>, k: nat)
    requires Disciplined(p, rules) && k < |rules|
    ensures Disciplined(p, rules[..k] + rules[k + 1..])
  {
  }

  /** One edit of the table through the engine's interface. */
  datatype Edit = Add(candidate: Rule) | RemoveAt(index: int) | Clear

  function ApplyEdit(p: Profile, rules: seq<Rule>, e: Edit): seq<Rule> {
    match e
    case Add(c) => if AddVerdict(p, rules, c) == Ok then rules + [c] else rules
    case RemoveAt(k) => if 0 <= k < |rules| then rules[..k] + rules[k + 1..] else rules
    case Clear => []
  }

  function ApplyEdits(p: Profile, edits: seq<Edit>): seq<Rule> {
    if edits == [] then []
    else ApplyEdit(p, ApplyEdits(p, edits[..|edits| - 1]), edits[|edits| - 1])
  }

  lemma {:induction false} EditsKeepDiscipline(p: Profile, edits: seq<Edit>)
    ensures Disciplined(p, ApplyEdits(p, edits))
  {
    if edits != [] {
      var before := ApplyEdits(p, edits[..|edits| - 1]);
      EditsKeepDiscipline(p, edits[..|edits| - 1]);
      match edits[|edits| - 1]
      case Add(c) => AcceptedIffDisciplined(p, before, c);
      case RemoveAt(k) => if 0 <= k < |before| { RemovalKeepsDiscipline(p, before, k); }
      case Clear =>
    }
  }
}
