/**
 The validation rule set of the product router: per-field chains of checks,
 each check paired with its message, evaluated without bailing out, so that
 every failing check of every chain contributes its own violation.
 */
module Validation {
  import opened Wrappers
  import opened Text
  import opened JsonValue

  /** The checks the router's chains use. */
  datatype Check = IsInt | NotEmpty | IsNumeric | GreaterThanZero | IsBoolean

  datatype Location = Param | Body

  /** One link of a chain: a check and the message reported when it fails. */
  datatype Step = Step(check: Check, msg: string)

  /** A chain of checks on one field of the path parameters or of the body. */
  datatype Rule = Rule(loc: Location, field: string, chain: seq<Step>)

  /** One reported failure, shaped like an entry of the `errors` array. */
  datatype Violation = Violation(loc: Location, field: string, msg: string)

  /** What the rules look at: the `:id` path segment (when the route has one) and the body. */
  datatype Inputs = Inputs(id: Option<string>, body: Fields)

  /**
   Whether a check accepts a field value (`None` for a field that is absent).
   Absent and null values read as the empty text; numbers and booleans read
   as their JavaScript text, so a number written in exponent form is neither
   an integer nor numeric. `GreaterThanZero` is the router's custom predicate
   `value > 0`: a boolean compares as 0 or 1, a number as itself and a
   numeric text as the number it denotes.
   */
  predicate Passes(c: Check, v: Option<Json>) {
    match c
    case IsInt =>
      v.Some? && (
        match v.value
        case JStr(s) => IntText(s)
        case JNum(n) => FixedNotation(n) && n.Floor as real == n
        case _ => false)
    case NotEmpty =>
      v.Some? && (
        match v.value
        case JNull => false
        case JStr(s) => |s| > 0
        case _ => true)
    case IsNumeric =>
      v.Some? && (
        match v.value
        case JStr(s) => NumericText(s)
        case JNum(n) => FixedNotation(n)
        case _ => false)
    case GreaterThanZero =>
      v.Some? && (
        match v.value
        case JNull => false
        case JBool(b) => b
        case JNum(n) => n > 0.0
        case JStr(s) => NumericText(s) && DecimalValue(s) > 0.0)
    case IsBoolean =>
      v.Some? && (
        match v.value
        case JBool(_) => true
        case JStr(s) => s == "true" || s == "false" || s == "0" || s == "1"
        case JNum(n) => n == 0.0 || n == 1.0
        case JNull => false)
  }

  /** The value a rule inspects. */
  function ValueOf(rule: Rule, inp: Inputs): Option<Json> {
    match rule.loc
    case Param => if rule.field == "id" && inp.id.Some? then Some(JStr(inp.id.value)) else None
    case Body => Lookup(inp.body, rule.field)
  }

  predicate RulePasses(rule: Rule, inp: Inputs) {
    forall i | 0 <= i < |rule.chain| :: Passes(rule.chain[i].check, ValueOf(rule, inp))
  }

  /** The violation a single step reports: none when its check passes. */
  function StepViolations(loc: Location, field: string, step: Step, v: Option<Json>): seq<Violation> {
    if Passes(step.check, v) then [] else [Violation(loc, field, step.msg)]
  }

  /** Whether each step of `chain` accepts `v`, position by position. */
  function Verdicts(chain: seq<Step>, v: Option<Json>): (ok: seq<bool>)
    ensures |ok| == |chain|
    ensures forall i | 0 <= i < |chain| :: ok[i] == Passes(chain[i].check, v)
  {
    seq(|chain|, i requires 0 <= i < |chain| => Passes(chain[i].check, v))
  }

  /** `idx` lists positions where `ok` is false, in increasing order. */
  predicate FailingPositions(idx: seq<nat>, ok: seq<bool>) {
    && (forall j | 0 <= j < |idx| :: idx[j] < |ok| && !ok[idx[j]])
    && (forall j, k | 0 <= j < k < |idx| :: idx[j] < idx[k])
  }

  /**
   The positions where `ok` is false, in increasing order; `FailingComplete`
   shows that none is missing.
   */
  function Failing(ok: seq<bool>): (idx: seq<nat>)
    ensures FailingPositions(idx, ok)
    ensures |idx| <= |ok|
    ensures |idx| == |ok| <==> forall i | 0 <= i < |ok| :: !ok[i]
  {
    if |ok| == 0 then []
    else
      var rest := Failing(ok[1..]);
      FailingStep(ok, rest);
      (if ok[0] then [] else [0]) + Shifted(rest)
  }

  /** Every position moved one step later. */
  function Shifted(idx: seq<nat>): (r: seq<nat>)
    ensures |r| == |idx|
    ensures forall j | 0 <= j < |idx| :: r[j] == idx[j] + 1
  {
    seq(|idx|, j requires 0 <= j < |idx| => idx[j] + 1)
  }

  /** The failing positions of a list: its first position's, then those of the rest, moved one step later. */
  lemma FailingStep(ok: seq<bool>, rest: seq<nat>)
    requires |ok| > 0
    requires FailingPositions(rest, ok[1..])
    requires |rest| <= |ok| - 1
    requires |rest| == |ok| - 1 <==> forall i | 0 <= i < |ok| - 1 :: !ok[1..][i]
    ensures var idx := (if ok[0] then [] else [0]) + Shifted(rest);
      && FailingPositions(idx, ok)
      && |idx| <= |ok|
      && (|idx| == |ok| <==> forall i | 0 <= i < |ok| :: !ok[i])
  {
    FailingStepSound(ok, rest);
    FailingStepOrdered(ok, rest);
    var idx := (if ok[0] then [] else [0]) + Shifted(rest);
    assert forall i | 1 <= i < |ok| :: ok[1..][i - 1] == ok[i];
    assert (forall i | 0 <= i < |ok| :: !ok[i]) <==> !ok[0] && forall i | 0 <= i < |ok| - 1 :: !ok[1..][i];
  }

  lemma FailingStepSound(ok: seq<bool>, rest: seq<nat>)
    requires |ok| > 0
    requires forall j | 0 <= j < |rest| :: rest[j] < |ok| - 1 && !ok[1..][rest[j]]
    ensures var idx := (if ok[0] then [] else [0]) + Shifted(rest);
      forall j | 0 <= j < |idx| :: idx[j] < |ok| && !ok[idx[j]]
  {
    var head: seq<nat> := if ok[0] then [] else [0];
    var idx := head + Shifted(rest);
    forall j | 0 <= j < |idx| ensures idx[j] < |ok| && !ok[idx[j]] {
      if j >= |head| {
        var r := rest[j - |head|];
        assert idx[j] == r + 1;
        assert ok[1..][r] == ok[r + 1];
      }
    }
  }

  lemma FailingStepOrdered(ok: seq<bool>, rest: seq<nat>)
    requires forall j, k | 0 <= j < k < |rest| :: rest[j] < rest[k]
    ensures var idx := (if |ok| > 0 && ok[0] then [] else [0]) + Shifted(rest);
      forall j, k | 0 <= j < k < |idx| :: idx[j] < idx[k]
  {
    var head: seq<nat> := if |ok| > 0 && ok[0] then [] else [0];
    var idx := head + Shifted(rest);
    forall j, k | 0 <= j < k < |idx| ensures idx[j] < idx[k] {
      assert idx[k] == rest[k - |head|] + 1;
      if j >= |head| {
        assert idx[j] == rest[j - |head|] + 1;
      }
    }
  }

  /** No failing position is missing from `Failing(ok)`. */
  lemma {:induction false} FailingComplete(ok: seq<bool>, i: nat)
    requires i < |ok| && !ok[i]
    ensures i in Failing(ok)
  {
    var head: seq<nat> := if ok[0] then [] else [0];
    var rest := Failing(ok[1..]);
    assert Failing(ok) == head + Shifted(rest);
    if i == 0 {
      assert head == [0];
    } else {
      assert ok[1..][i - 1] == ok[i];
      FailingComplete(ok[1..], i - 1);
      ShiftedMember(rest, i - 1);
    }
  }

  lemma ShiftedMember(idx: seq<nat>, x: nat)
    requires x in idx
    ensures x + 1 in Shifted(idx)
  {
    var j :| 0 <= j < |idx| && idx[j] == x;
    assert Shifted(idx)[j] == x + 1;
  }

  /** The message of each step of `chain`, position by position. */
  function Messages(chain: seq<Step>): (msgs: seq<string>)
    ensures |msgs| == |chain|
    ensures forall i | 0 <= i < |chain| :: msgs[i] == chain[i].msg
  {
    seq(|chain|, i requires 0 <= i < |chain| => chain[i].msg)
  }

  /**
   Whether `vs` holds, in order, one violation per false position of `ok`,
   carrying the message at that position.
   */
  predicate Reports(vs: seq<Violation>, loc: Location, field: string, ok: seq<bool>, msgs: seq<string>)
    requires |ok| == |msgs|
  {
    var idx := Failing(ok);
    && |vs| == |idx|
    && forall j | 0 <= j < |vs| :: vs[j] == Violation(loc, field, msgs[idx[j]])
  }

  /** Whether `vs` reports, in order, one violation per failing step of `chain`, carrying that step's message. */
  predicate ReportsFailures(vs: seq<Violation>, loc: Location, field: string, chain: seq<Step>, v: Option<Json>) {
    Reports(vs, loc, field, Verdicts(chain, v), Messages(chain))
  }

  /** The report of a first position followed by the report of the rest is the report of the whole. */
  lemma ReportsStep(loc: Location, field: string, ok: seq<bool>, msgs: seq<string>, head: seq<Violation>, tail: seq<Violation>)
    requires |ok| == |msgs| > 0
    requires head == if ok[0] then [] else [Violation(loc, field, msgs[0])]
    requires Reports(tail, loc, field, ok[1..], msgs[1..])
    ensures Reports(head + tail, loc, field, ok, msgs)
  {
    var rest := Failing(ok[1..]);
    var idx := Failing(ok);
    var h := |head|;
    assert idx == (if ok[0] then [] else [0]) + Shifted(rest);
    forall j | h <= j < |head + tail| ensures (head + tail)[j] == Violation(loc, field, msgs[idx[j]]) {
      var r := rest[j - h];
      assert (head + tail)[j] == tail[j - h] == Violation(loc, field, msgs[1..][r]);
      assert idx[j] == r + 1;
    }
  }

  /**
   Runs every step of a chain on the same value. A failing step does not stop
   the chain: each failure is reported on its own, in the order of the steps.
   */
  function RunChain(loc: Location, field: string, chain: seq<Step>, v: Option<Json>): (vs: seq<Violation>)
    ensures |vs| <= |chain|
  {
    if |chain| == 0 then [] else StepViolations(loc, field, chain[0], v) + RunChain(loc, field, chain[1..], v)
  }

  /** A chain reports, in order, one violation per failing step, carrying that step's message. */
  lemma {:induction false} ChainReports(loc: Location, field: string, chain: seq<Step>, v: Option<Json>)
    ensures ReportsFailures(RunChain(loc, field, chain, v), loc, field, chain, v)
  {
    if |chain| > 0 {
      ChainReports(loc, field, chain[1..], v);
      ChainStep(loc, field, chain, v, StepViolations(loc, field, chain[0], v), RunChain(loc, field, chain[1..], v));
    }
  }

  lemma ChainStep(loc: Location, field: string, chain: seq<Step>, v: Option<Json>, head: seq<Violation>, tail: seq<Violation>)
    requires |chain| > 0
    requires head == StepViolations(loc, field, chain[0], v)
    requires ReportsFailures(tail, loc, field, chain[1..], v)
    ensures ReportsFailures(head + tail, loc, field, chain, v)
  {
    var ok := Verdicts(chain, v);
    var msgs := Messages(chain);
    VerdictsTail(chain, v);
    assert msgs[1..] == Messages(chain[1..]);
    assert head == if ok[0] then [] else [Violation(loc, field, msgs[0])];
    ReportsStep(loc, field, ok, msgs, head, tail);
  }

  /** The verdicts of a chain's rest are the rest of its verdicts. */
  lemma VerdictsTail(chain: seq<Step>, v: Option<Json>)
    requires |chain| > 0
    ensures Verdicts(chain, v)[1..] == Verdicts(chain[1..], v)
  {
    assert forall i | 0 <= i < |chain| - 1 :: chain[1..][i] == chain[i + 1];
  }

  /**
   What a chain's report says about its checks: nothing is reported exactly
   when every check passes, one violation per check exactly when every check
   fails, each failing check's message is among the reports, and every report
   is about the chain's field.
   */
  lemma ChainVerdicts(loc: Location, field: string, chain: seq<Step>, v: Option<Json>)
    ensures var vs := RunChain(loc, field, chain, v);
      && |vs| <= |chain|
      && (vs == [] <==> forall i | 0 <= i < |chain| :: Passes(chain[i].check, v))
      && (|vs| == |chain| <==> forall i | 0 <= i < |chain| :: !Passes(chain[i].check, v))
      && (forall i | 0 <= i < |chain| && !Passes(chain[i].check, v) :: Violation(loc, field, chain[i].msg) in vs)
      && (forall w | w in vs :: w.loc == loc && w.field == field)
  {
    var vs := RunChain(loc, field, chain, v);
    var ok := Verdicts(chain, v);
    var idx := Failing(ok);
    ChainReports(loc, field, chain, v);
    assert |vs| == |idx|;
    forall w | w in vs ensures w.loc == loc && w.field == field {
      var j :| 0 <= j < |vs| && vs[j] == w;
    }
    forall i | 0 <= i < |chain| && !Passes(chain[i].check, v) ensures Violation(loc, field, chain[i].msg) in vs {
      assert !ok[i];
      FailingComplete(ok, i);
      var j :| 0 <= j < |idx| && idx[j] == i;
      assert vs[j] == Violation(loc, field, chain[i].msg);
    }
    FailingNone(ok);
    assert (forall i | 0 <= i < |chain| :: Passes(chain[i].check, v)) <==> (forall i | 0 <= i < |ok| :: ok[i]);
    assert (forall i | 0 <= i < |chain| :: !Passes(chain[i].check, v)) <==> (forall i | 0 <= i < |ok| :: !ok[i]);
  }

  /** Nothing fails exactly when every position holds. */
  lemma FailingNone(ok: seq<bool>)
    ensures Failing(ok) == [] <==> forall i | 0 <= i < |ok| :: ok[i]
  {
    var idx := Failing(ok);
    assert |idx| > 0 ==> !ok[idx[0]];
    forall i | 0 <= i < |ok| && !ok[i] ensures idx != [] {
      FailingComplete(ok, i);
    }
  }

  function RunRule(rule: Rule, inp: Inputs): seq<Violation> {
    RunChain(rule.loc, rule.field, rule.chain, ValueOf(rule, inp))
  }

  /** Runs every rule of a route, in declaration order, and collects all violations. */
  function RunRules(rules: seq<Rule>, inp: Inputs): seq<Violation> {
    if |rules| == 0 then [] else RunRule(rules[0], inp) + RunRules(rules[1..], inp)
  }

  /** A route's rules report nothing exactly when every check of every rule passes. */
  lemma {:induction false} RunRulesEmpty(rules: seq<Rule>, inp: Inputs)
    ensures RunRules(rules, inp) == [] <==> forall i | 0 <= i < |rules| :: RulePasses(rules[i], inp)
  {
    if |rules| > 0 {
      RunRulesEmpty(rules[1..], inp);
      ChainVerdicts(rules[0].loc, rules[0].field, rules[0].chain, ValueOf(rules[0], inp));
      assert forall i | 1 <= i < |rules| :: rules[i] == rules[1..][i - 1];
    }
  }

  /**
   The number a price accepted by `isNumeric` is stored as. A price the
   custom check `value > 0` also accepts is stored as a positive number.
   */
  function PriceOf(v: Json): (r: real)
    requires Passes(IsNumeric, Some(v))
    ensures Passes(GreaterThanZero, Some(v)) ==> r > 0.0
  {
    match v
    case JNum(n) => n
    case JStr(s) => DecimalValue(s)
    case _ => 0.0
  }

  /** The violations of `vs` that concern `field`. */
  function ForField(vs: seq<Violation>, field: string): seq<Violation> {
    if |vs| == 0 then []
    else (if vs[0].field == field then [vs[0]] else []) + ForField(vs[1..], field)
  }

  const IdMsg := "ID no válido."
  const NameMsg := "El nombre del producto es obligatorio."
  const PriceInvalidMsg := "El precio no es válido."
  const PriceMissingMsg := "El precio del producto es obligatorio."
  const AvailabilityMsg := "El valor de disponibilidad no es válido."

  /** `param('id').isInt()`. */
  const IdRule := Rule(Param, "id", [Step(IsInt, IdMsg)])

  /** `body('name').notEmpty()`. */
  const NameRule := Rule(Body, "name", [Step(NotEmpty, NameMsg)])

  /** `body('price').isNumeric().notEmpty().custom(value => value > 0)`. */
  const PriceRule := Rule(Body, "price",
    [Step(IsNumeric, PriceInvalidMsg), Step(NotEmpty, PriceMissingMsg), Step(GreaterThanZero, PriceInvalidMsg)])

  /** `body('availability').isBoolean()`. */
  const AvailabilityRule := Rule(Body, "availability", [Step(IsBoolean, AvailabilityMsg)])

  /** The chains of GET, PATCH and DELETE on `/:id`. */
  const IdRules := [IdRule]

  /** The chains of POST `/`. */
  const CreateRules := [NameRule, PriceRule]

  /** The chains of PUT `/:id`. */
  const UpdateRules := [IdRule, NameRule, PriceRule, AvailabilityRule]

  /** A three-step chain reports the violations of its steps, in order. */
  lemma ChainOfThree(loc: Location, field: string, a: Step, b: Step, c: Step, v: Option<Json>)
    ensures RunChain(loc, field, [a, b, c], v) ==
      StepViolations(loc, field, a, v) + StepViolations(loc, field, b, v) + StepViolations(loc, field, c, v)
  {
    var x, y, z := StepViolations(loc, field, a, v), StepViolations(loc, field, b, v), StepViolations(loc, field, c, v);
    ChainCons(loc, field, c, [], v);
    ChainCons(loc, field, b, [c], v);
    ChainCons(loc, field, a, [b, c], v);
    assert [a, b, c] == [a] + [b, c] && [b, c] == [b] + [c] && [c] == [c] + [];
    assert x + (y + (z + [])) == x + y + z;
  }

  /** A chain reports the violations of its first step, then those of the rest. */
  lemma ChainCons(loc: Location, field: string, s: Step, rest: seq<Step>, v: Option<Json>)
    ensures RunChain(loc, field, [s] + rest, v) == StepViolations(loc, field, s, v) + RunChain(loc, field, rest, v)
  {
    assert ([s] + rest)[1..] == rest;
  }

  /** The price chain, step by step. */
  lemma PriceRuleSteps(inp: Inputs)
    ensures var v := ValueOf(PriceRule, inp);
      RunRule(PriceRule, inp) ==
        StepViolations(Body, "price", PriceRule.chain[0], v) +
        StepViolations(Body, "price", PriceRule.chain[1], v) +
        StepViolations(Body, "price", PriceRule.chain[2], v)
  {
    var c := PriceRule.chain;
    ChainOfThree(Body, "price", c[0], c[1], c[2], ValueOf(PriceRule, inp));
    assert c == [c[0], c[1], c[2]];
  }

  /** Violations of a rule list made of a first rule and the rest. */
  lemma RunRulesCons(r: Rule, rest: seq<Rule>, inp: Inputs)
    ensures RunRules([r] + rest, inp) == RunRule(r, inp) + RunRules(rest, inp)
  {
    assert ([r] + rest)[1..] == rest;
  }

  lemma RunRulesOfTwo(a: Rule, b: Rule, inp: Inputs)
    ensures RunRules([a, b], inp) == RunRule(a, inp) + RunRule(b, inp)
  {
    RunRulesCons(a, [b], inp);
    RunRulesCons(b, [], inp);
    assert [a, b] == [a] + [b];
    assert [b] == [b] + [];
  }

  lemma RunRulesOfThree(a: Rule, b: Rule, c: Rule, inp: Inputs)
    ensures RunRules([a, b, c], inp) == RunRule(a, inp) + (RunRule(b, inp) + RunRule(c, inp))
  {
    assert [a, b, c] == [a] + [b, c];
    RunRulesOfTwo(b, c, inp);
    RunRulesCons(a, [b, c], inp);
  }

  lemma RunRulesOfFour(a: Rule, b: Rule, c: Rule, d: Rule, inp: Inputs)
    ensures RunRules([a, b, c, d], inp) == RunRule(a, inp) + RunRule(b, inp) + RunRule(c, inp) + RunRule(d, inp)
  {
    assert [a, b, c, d] == [a] + [b, c, d];
    RunRulesOfThree(b, c, d, inp);
    RunRulesCons(a, [b, c, d], inp);
    SeqAssoc(RunRule(a, inp), RunRule(b, inp), RunRule(c, inp), RunRule(d, inp));
  }

  lemma SeqAssoc<T>(a: seq<T>, b: seq<T>, c: seq<T>, d: seq<T>)
    ensures a + (b + (c + d)) == a + b + c + d
  {
  }

  /** The PUT chains contribute their violations one rule after another. */
  lemma UpdateRulesSteps(inp: Inputs)
    ensures RunRules(UpdateRules, inp) ==
      RunRule(IdRule, inp) + RunRule(NameRule, inp) + RunRule(PriceRule, inp) + RunRule(AvailabilityRule, inp)
  {
    RunRulesOfFour(IdRule, NameRule, PriceRule, AvailabilityRule, inp);
  }

  /** The POST chains contribute their violations one rule after another. */
  lemma CreateRulesSteps(inp: Inputs)
    ensures RunRules(CreateRules, inp) == RunRule(NameRule, inp) + RunRule(PriceRule, inp)
  {
    RunRulesOfTwo(NameRule, PriceRule, inp);
  }

  /** The id chain alone reports exactly its one message, or nothing. */
  lemma IdRulesSteps(inp: Inputs)
    ensures RunRules(IdRules, inp) == StepViolations(Param, "id", IdRule.chain[0], ValueOf(IdRule, inp))
  {
    RunRulesCons(IdRule, [], inp);
    assert IdRules == [IdRule] + [];
    assert IdRule.chain[1..] == [];
  }

  lemma {:induction false} ForFieldAppend(a: seq<Violation>, b: seq<Violation>, field: string)
    ensures ForField(a + b, field) == ForField(a, field) + ForField(b, field)
  {
    if |a| > 0 {
      ForFieldAppend(a[1..], b, field);
      assert (a + b)[0] == a[0];
      assert (a + b)[1..] == a[1..] + b;
    } else {
      assert a + b == b;
    }
  }

  /** A numeric price is never empty, so the price chain can fail on positivity alone. */
  lemma NumericIsNotEmpty(v: Option<Json>)
    requires Passes(IsNumeric, v)
    ensures Passes(NotEmpty, v)
  {
  }

  /**
   The price chain on a numeric value reports exactly one violation when the
   value is not above zero and none when it is.
   */
  lemma NumericPriceViolations(inp: Inputs)
    requires Passes(IsNumeric, ValueOf(PriceRule, inp))
    ensures var vs := RunRule(PriceRule, inp);
      |vs| == if Passes(GreaterThanZero, ValueOf(PriceRule, inp)) then 0 else 1
    ensures Passes(GreaterThanZero, ValueOf(PriceRule, inp)) ==> RunRule(PriceRule, inp) == []
    ensures !Passes(GreaterThanZero, ValueOf(PriceRule, inp)) ==>
      RunRule(PriceRule, inp) == [Violation(Body, "price", PriceInvalidMsg)]
  {
    var v := ValueOf(PriceRule, inp);
    NumericIsNotEmpty(v);
    PriceRuleSteps(inp);
  }

  /** An absent price fails all three checks of its chain, each reported. */
  lemma MissingPriceViolations(inp: Inputs)
    requires "price" !in inp.body
    ensures |RunRule(PriceRule, inp)| == 3
    ensures RunRule(PriceRule, inp) ==
      [Violation(Body, "price", PriceInvalidMsg), Violation(Body, "price", PriceMissingMsg), Violation(Body, "price", PriceInvalidMsg)]
  {
    PriceRuleSteps(inp);
  }
}
