/** Choice rules: evaluation, its algebra, and rule selection (internal/states/choice.go). */
module ChoiceRules {
  import opened Outcomes
  import opened Json
  import opened JsonPath
  import PathSyntax

  /** The operator a rule's comparison uses first. The type checks are decided here; a value
      comparison (strings, numbers, timestamps) is an uninterpreted function of its id. */
  datatype Op =
    | NoOp
    | IsPresent(expected: bool)
    | IsNull(expected: bool)
    | IsBoolean(expected: bool)
    | IsNumeric(expected: bool)
    | IsString(expected: bool)
    | IsTimestamp(expected: bool)
    | Compare(id: nat)

  datatype Rule = Rule(
    variable: string,
    op: Op,
    all: seq<Rule>,
    any: seq<Rule>,
    negated: Option<Rule>,
    next: string)

  type Comparison = (nat, Value) -> Outcome<bool>

  predicate TypeCheck(op: Op) {
    !op.NoOp? && !op.Compare?
  }

  function EvalOp(cmp: Comparison, op: Op, v: Value): (r: Outcome<bool>) {
    match op
    case IsPresent(e) => Ok((v != Null) == e)
    case IsNull(e) => Ok((v == Null) == e)
    case IsBoolean(e) => Ok(v.Bool? == e)
    case IsNumeric(e) => Ok(v.Num? == e)
    case IsString(e) => Ok(v.Str? == e)
    case IsTimestamp(e) => Ok(!e)
    case Compare(id) => cmp(id, v)
    case NoOp => Err("no comparison operator specified in choice rule")
  }

  /** The value a rule looks at: an inaccessible variable reads as nil. */
  function RuleContext(r: Rule, input: Value): (v: Outcome<Value>) {
    if r.variable == "" then Ok(input)
    else
      var read := ApplyInputPath(input, Some(r.variable));
      if read.Err? then Ok(Null) else read
  }

  function Eval(cmp: Comparison, r: Rule, input: Value): (b: Outcome<bool>)
    decreases r, 1
  {
    var context := RuleContext(r, input);
    if !context.Ok? then Panic
    else if r.variable != "" && context.value == Null && !TypeCheck(r.op) then Ok(false)
    else if |r.all| > 0 then EvalAll(cmp, r.all, context.value)
    else if |r.any| > 0 then EvalAny(cmp, r.any, context.value)
    else if r.negated.Some? then Negate(Eval(cmp, r.negated.value, context.value))
    else EvalOp(cmp, r.op, context.value)
  }

  function Negate(b: Outcome<bool>): (r: Outcome<bool>) {
    if b.Ok? then Ok(!b.value) else b
  }

  /** Conjunction with left-to-right short circuit: the first rule that is not true decides. */
  function EvalAll(cmp: Comparison, rs: seq<Rule>, v: Value): (b: Outcome<bool>)
    decreases rs, 0
  {
    if rs == [] then Ok(true)
    else
      var first := Eval(cmp, rs[0], v);
      if first == Ok(true) then EvalAll(cmp, rs[1..], v) else first
  }

  /** Disjunction with left-to-right short circuit: the first rule that is not false decides. */
  function EvalAny(cmp: Comparison, rs: seq<Rule>, v: Value): (b: Outcome<bool>)
    decreases rs, 0
  {
    if rs == [] then Ok(false)
    else
      var first := Eval(cmp, rs[0], v);
      if first == Ok(false) then EvalAny(cmp, rs[1..], v) else first
  }

  method EvaluateAnd(cmp: Comparison, rules: seq<Rule>, context: Value) returns (r: Outcome<bool>)
    ensures r == EvalAll(cmp, rules, context)
  {
    for i := 0 to |rules|
      invariant EvalAll(cmp, rules, context) == EvalAll(cmp, rules[i..], context)
    {
      assert rules[i..][0] == rules[i] && rules[i..][1..] == rules[i + 1..];
      var matched := Eval(cmp, rules[i], context);
      if !matched.Ok? { return matched; }
      if !matched.value { return Ok(false); }
    }
    return Ok(true);
  }

  method EvaluateOr(cmp: Comparison, rules: seq<Rule>, context: Value) returns (r: Outcome<bool>)
    ensures r == EvalAny(cmp, rules, context)
  {
    for i := 0 to |rules|
      invariant EvalAny(cmp, rules, context) == EvalAny(cmp, rules[i..], context)
    {
      assert rules[i..][0] == rules[i] && rules[i..][1..] == rules[i + 1..];
      var matched := Eval(cmp, rules[i], context);
      if !matched.Ok? { return matched; }
      if matched.value { return Ok(true); }
    }
    return Ok(false);
  }

  /* ---------- what a rule decides ---------- */

  /** A rule without compounds. */
  function TestOf(variable: string, op: Op): (r: Rule) {
    Rule(variable, op, [], [], None, "")
  }

  /** The type checks on a readable variable, and their answer when it cannot be read: what is missing
      is not present, null, and of no type. No value passes as a timestamp. */
  lemma TypeChecksDecide(cmp: Comparison, variable: string, input: Value, v: Value, e: bool)
    requires variable != ""
    requires match ApplyInputPath(input, Some(variable)) case Ok(x) => v == x case Err(_) => v == Null case Panic => false
    ensures Eval(cmp, TestOf(variable, IsPresent(e)), input) == Ok(e <==> v != Null)
    ensures Eval(cmp, TestOf(variable, IsNull(e)), input) == Ok(e <==> v == Null)
    ensures Eval(cmp, TestOf(variable, IsBoolean(e)), input) == Ok(e <==> v.Bool?)
    ensures Eval(cmp, TestOf(variable, IsNumeric(e)), input) == Ok(e <==> v.Num?)
    ensures Eval(cmp, TestOf(variable, IsString(e)), input) == Ok(e <==> v.Str?)
    ensures Eval(cmp, TestOf(variable, IsTimestamp(e)), input) == Ok(!e)
  {
    hide ApplyInputPath, Eval;
    TypeCheckSees(cmp, variable, IsPresent(e), input, v);
    TypeCheckSees(cmp, variable, IsNull(e), input, v);
    TypeCheckSees(cmp, variable, IsBoolean(e), input, v);
    TypeCheckSees(cmp, variable, IsNumeric(e), input, v);
    TypeCheckSees(cmp, variable, IsString(e), input, v);
    TypeCheckSees(cmp, variable, IsTimestamp(e), input, v);
  }

  lemma TypeCheckSees(cmp: Comparison, variable: string, op: Op, input: Value, v: Value)
    requires variable != "" && TypeCheck(op)
    requires match ApplyInputPath(input, Some(variable)) case Ok(x) => v == x case Err(_) => v == Null case Panic => false
    ensures Eval(cmp, TestOf(variable, op), input) == EvalOp(cmp, op, v)
  {
    hide ApplyInputPath, EvalOp;
  }

  /** A value comparison sees the value of the variable; it is false when there is none. */
  lemma ComparisonDecides(cmp: Comparison, variable: string, id: nat, input: Value, v: Value)
    requires variable != ""
    requires match ApplyInputPath(input, Some(variable)) case Ok(x) => v == x case Err(_) => v == Null case Panic => false
    ensures Eval(cmp, TestOf(variable, Compare(id)), input) == if v == Null then Ok(false) else cmp(id, v)
  {
    hide ApplyInputPath;
  }

  /** A variable whose read panics makes every rule panic, and without a variable a rule looks at the
      whole input. */
  lemma ContextDecides(cmp: Comparison, r: Rule, input: Value)
    ensures r.variable != "" && ApplyInputPath(input, Some(r.variable)) == Panic ==> Eval(cmp, r, input) == Panic
    ensures r.variable == "" && r.all == [] && r.any == [] && r.negated.None? ==> Eval(cmp, r, input) == EvalOp(cmp, r.op, input)
  {
    hide ApplyInputPath, EvalOp;
  }

  /** When a rule carries several compounds, And comes before Or, Or before Not, and all of them before
      its comparison. */
  lemma CompoundsHavePrecedence(cmp: Comparison, r: Rule, input: Value)
    ensures |r.all| > 0 ==> Eval(cmp, r, input) == Eval(cmp, r.(any := [], negated := None), input)
    ensures |r.all| == 0 && |r.any| > 0 ==> Eval(cmp, r, input) == Eval(cmp, r.(negated := None), input)
  {
    hide ApplyInputPath;
  }

  /* ---------- the algebra of rules ---------- */

  function AndOf(variable: string, op: Op, rs: seq<Rule>): (r: Rule) {
    Rule(variable, op, rs, [], None, "")
  }

  function OrOf(variable: string, op: Op, rs: seq<Rule>): (r: Rule) {
    Rule(variable, op, [], rs, None, "")
  }

  function NotOf(variable: string, op: Op, r: Rule): (n: Rule) {
    Rule(variable, op, [], [], Some(r), "")
  }

  function NotEach(rs: seq<Rule>): (ns: seq<Rule>)
    ensures |ns| == |rs|
    ensures forall i :: 0 <= i < |rs| ==> ns[i] == NotOf("", NoOp, rs[i])
  {
    if rs == [] then [] else [NotOf("", NoOp, rs[0])] + NotEach(rs[1..])
  }

  lemma {:induction false} NegateAll(cmp: Comparison, rs: seq<Rule>, v: Value)
    ensures Negate(EvalAll(cmp, rs, v)) == EvalAny(cmp, NotEach(rs), v)
    ensures Negate(EvalAny(cmp, rs, v)) == EvalAll(cmp, NotEach(rs), v)
    decreases |rs|
  {
    if rs != [] {
      NegateAll(cmp, rs[1..], v);
      assert NotEach(rs)[1..] == NotEach(rs[1..]);
      assert Eval(cmp, NotOf("", NoOp, rs[0]), v) == Negate(Eval(cmp, rs[0], v));
    }
  }

  /** What a rule with this variable and operator looks at. */
  function ContextOf(variable: string, op: Op, input: Value): (v: Outcome<Value>) {
    RuleContext(AndOf(variable, op, []), input)
  }

  /** A rule that names an absent variable is false at once, whatever it is made of - unless its
      operator is a type check. */
  predicate Absent(variable: string, op: Op, input: Value) {
    variable != "" && ContextOf(variable, op, input) == Ok(Null) && !TypeCheck(op)
  }

  /** A compound rule evaluates its operands in its own context, or is false at once when
      its variable is absent. */
  function InContext(variable: string, op: Op, input: Value, inner: Value -> Outcome<bool>): (b: Outcome<bool>) {
    var context := ContextOf(variable, op, input);
    if !context.Ok? then Panic
    else if Absent(variable, op, input) then Ok(false)
    else inner(context.value)
  }

  lemma EvalNotOf(cmp: Comparison, variable: string, op: Op, r: Rule, input: Value)
    ensures Eval(cmp, NotOf(variable, op, r), input)
         == InContext(variable, op, input, v => Negate(Eval(cmp, r, v)))
  {
  }

  lemma EvalCompound(cmp: Comparison, variable: string, op: Op, rs: seq<Rule>, input: Value)
    requires rs != []
    ensures Eval(cmp, AndOf(variable, op, rs), input) == InContext(variable, op, input, v => EvalAll(cmp, rs, v))
    ensures Eval(cmp, OrOf(variable, op, rs), input) == InContext(variable, op, input, v => EvalAny(cmp, rs, v))
  {
  }

  /** De Morgan with the variable on the outside, errors and panics included, for every list of
      rules (for the empty list both sides report the missing operator). */
  lemma DeMorgan(cmp: Comparison, variable: string, rs: seq<Rule>, input: Value)
    ensures Eval(cmp, NotOf(variable, NoOp, AndOf("", NoOp, rs)), input) == Eval(cmp, OrOf(variable, NoOp, NotEach(rs)), input)
    ensures Eval(cmp, NotOf(variable, NoOp, OrOf("", NoOp, rs)), input) == Eval(cmp, AndOf(variable, NoOp, NotEach(rs)), input)
  {
    EvalNotOf(cmp, variable, NoOp, AndOf("", NoOp, rs), input);
    EvalNotOf(cmp, variable, NoOp, OrOf("", NoOp, rs), input);
    var context := ContextOf(variable, NoOp, input);
    if rs == [] {
      assert NotEach(rs) == [];
    } else {
      EvalCompound(cmp, variable, NoOp, NotEach(rs), input);
      if context.Ok? {
        EvalCompound(cmp, "", NoOp, rs, context.value);
        NegateAll(cmp, rs, context.value);
      }
    }
  }

  /** De Morgan with the variable on the negated rule: it holds exactly when that variable is not
      absent. An absent variable makes both compounds false, and the negation true. */
  lemma DeMorganExactly(cmp: Comparison, outer: Op, variable: string, op: Op, rs: seq<Rule>, input: Value)
    requires rs != []
    ensures Eval(cmp, NotOf("", outer, AndOf(variable, op, rs)), input) == Eval(cmp, OrOf(variable, op, NotEach(rs)), input)
        <==> !Absent(variable, op, input)
    ensures Eval(cmp, NotOf("", outer, OrOf(variable, op, rs)), input) == Eval(cmp, AndOf(variable, op, NotEach(rs)), input)
        <==> !Absent(variable, op, input)
  {
    hide Eval, EvalAll, EvalAny, NotEach;
    EvalNotOf(cmp, "", outer, AndOf(variable, op, rs), input);
    EvalNotOf(cmp, "", outer, OrOf(variable, op, rs), input);
    EvalCompound(cmp, variable, op, rs, input);
    EvalCompound(cmp, variable, op, NotEach(rs), input);
    var context := ContextOf(variable, op, input);
    if context.Ok? { NegateAll(cmp, rs, context.value); }
  }

  /** The input where it fails: any field of the empty document is absent. */
  lemma AbsentVariable()
    ensures Absent("$.x", NoOp, Obj(map[]))
  {
    var path := "$.x";
    assert path[1..] == ".x" && ".x"[1..] == "x";
    assert PathSyntax.FirstOf("x", {'.', '['}) == 1;
    assert PathSyntax.Split("x") == ["x"] by { assert "x"[..1] == "x" && "x"[1..] == ""; }
    assert PathSyntax.PathParts(path) == ["x"];
    assert GetPart(Obj(map[]), "x").Err?;
  }

  /** Double negation, errors and panics included: the inner Not evaluates its rule in its own
      context, so two of them give the rule in that context - exactly when the variable is not
      absent; then the outer one is true. */
  lemma DoubleNegation(cmp: Comparison, outer: Op, variable: string, op: Op, r: Rule, input: Value)
    ensures var context := ContextOf(variable, op, input);
            Eval(cmp, NotOf("", outer, NotOf(variable, op, r)), input) ==
              if !context.Ok? then Panic
              else if Absent(variable, op, input) then Ok(true)
              else Eval(cmp, r, context.value)
    ensures Eval(cmp, NotOf("", outer, NotOf(variable, op, r)), input) == Eval(cmp, AndOf(variable, op, [r]), input)
        <==> !Absent(variable, op, input)
  {
    EvalNotOf(cmp, "", outer, NotOf(variable, op, r), input);
    EvalNotOf(cmp, variable, op, r, input);
    EvalCompound(cmp, variable, op, [r], input);
    var context := ContextOf(variable, op, input);
    if context.Ok? { SingleRule(cmp, r, context.value); }
  }

  lemma SingleRule(cmp: Comparison, r: Rule, v: Value)
    ensures EvalAll(cmp, [r], v) == Eval(cmp, r, v)
  {
    assert [r][1..] == [];
  }

  /** Two plain Nots cancel. */
  lemma PlainDoubleNegation(cmp: Comparison, r: Rule, input: Value)
    ensures Eval(cmp, NotOf("", NoOp, NotOf("", NoOp, r)), input) == Eval(cmp, r, input)
  {
    DoubleNegation(cmp, NoOp, "", NoOp, r, input);
  }

  /* ---------- selection ---------- */

  /** Index of the first rule that is not plainly false, or the failure met on the way;
      the number of rules when all are false. */
  function FirstMatch(cmp: Comparison, rules: seq<Rule>, v: Value): (r: Outcome<nat>) {
    if rules == [] then Ok(0)
    else
      match Eval(cmp, rules[0], v)
      case Ok(true) => Ok(0)
      case Ok(false) =>
        var rest := FirstMatch(cmp, rules[1..], v);
        if rest.Ok? then Ok(rest.value + 1) else rest
      case Err(e) => Err(e)
      case Panic => Panic
  }

  predicate AllFalse(cmp: Comparison, rules: seq<Rule>, v: Value, k: nat)
    requires k <= |rules|
  {
    forall j :: 0 <= j < k ==> Eval(cmp, rules[j], v) == Ok(false)
  }

  /** Selection is decided by the least rule that is not false: it is chosen when true, and
      its failure is reported otherwise. When every rule is false, none is chosen. */
  lemma {:induction false} FirstMatchDecides(cmp: Comparison, rules: seq<Rule>, v: Value, k: nat)
    requires k <= |rules| && AllFalse(cmp, rules, v, k)
    requires k < |rules| ==> Eval(cmp, rules[k], v) != Ok(false)
    ensures FirstMatch(cmp, rules, v) ==
      if k == |rules| then Ok(k)
      else match Eval(cmp, rules[k], v) case Ok(_) => Ok(k) case Err(e) => Err(e) case Panic => Panic
    decreases k
  {
    if k > 0 {
      var rest := rules[1..];
      assert Eval(cmp, rules[0], v) == Ok(false);
      assert AllFalse(cmp, rest, v, k - 1) by {
        forall j | 0 <= j < k - 1 ensures Eval(cmp, rest[j], v) == Ok(false) { assert rest[j] == rules[j + 1]; }
      }
      FirstMatchDecides(cmp, rest, v, k - 1);
    }
  }

  /** Conversely, a chosen rule is true and every earlier one is false and error-free. */
  lemma {:induction false} FirstMatchIsLeast(cmp: Comparison, rules: seq<Rule>, v: Value)
    requires FirstMatch(cmp, rules, v).Ok?
    ensures var k := FirstMatch(cmp, rules, v).value;
            k <= |rules| && AllFalse(cmp, rules, v, k) && (k < |rules| ==> Eval(cmp, rules[k], v) == Ok(true))
    decreases |rules|
  {
    if rules != [] && Eval(cmp, rules[0], v) == Ok(false) {
      var rest := rules[1..];
      FirstMatchIsLeast(cmp, rest, v);
      var k := FirstMatch(cmp, rules, v).value;
      forall j | 0 <= j < k ensures Eval(cmp, rules[j], v) == Ok(false) {
        if j > 0 { assert rules[j] == rest[j - 1]; }
      }
    }
  }

  /** The selection loop of the Choice state. */
  method SelectRule(cmp: Comparison, rules: seq<Rule>, input: Value) returns (r: Outcome<nat>)
    ensures r == FirstMatch(cmp, rules, input)
  {
    for i := 0 to |rules|
      invariant AllFalse(cmp, rules, input, i)
    {
      var matched := Eval(cmp, rules[i], input);
      if matched != Ok(false) {
        FirstMatchDecides(cmp, rules, input, i);
        match matched
        case Ok(_) => return Ok(i);
        case Err(e) => return Err(e);
        case Panic => return Panic;
      }
    }
    FirstMatchDecides(cmp, rules, input, |rules|);
    return Ok(|rules|);
  }
}
