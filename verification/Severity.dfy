/**
 Severity of an analysis: the weights of the rules that its result matches or, when these come to zero, a fallback on
 the result's own hint. Comparing or converting values of the wrong kind raises.
 */
module Severity {
  import opened Domain
  import opened Sums

  const MAX_DIGITS := 4300

  /******* Python values *******/

  /** A value of a JSON text. A finite float is a real number, of those that floats can represent. */
  datatype Value =
    | Nothing
    | Bool(b: bool)
    | Int(n: int)
    | Float(x: real)
    | NotANumber
    | Infinite(positive: bool)
    | Str(s: string)
    | List(items: seq<Value>)
    | Dict(members: seq<(string, Value)>)

  /** The model's answer; JSON keys are strings. */
  type Result = map<string, Value>

  datatype Op = Eq | Gte | OtherOp

  /** A missing field or value is None. */
  datatype Condition = Condition(field: Value, op: Op, value: Value)

  datatype Rule = Rule(condition: Condition, weight: int)

  predicate IsFloat(v: Value) {
    v.Float? || v.NotANumber? || v.Infinite?
  }

  predicate IsNumber(v: Value) {
    v.Bool? || v.Int? || IsFloat(v)
  }

  predicate IsFinite(v: Value) {
    v.Bool? || v.Int? || v.Float?
  }

  function NumberOf(v: Value): real
    requires IsFinite(v)
  {
    match v
    case Bool(b) => if b then 1.0 else 0.0
    case Int(n) => n as real
    case Float(x) => x
  }

  /** v == w; dicts do not depend on the order of their members. */
  predicate Equal(v: Value, w: Value)
    decreases v, 0
  {
    if IsNumber(v) && IsNumber(w) then
      if IsFinite(v) && IsFinite(w) then NumberOf(v) == NumberOf(w) else v == w && v != NotANumber
    else if v.List? && w.List? then
      |v.items| == |w.items| && forall i | 0 <= i < |v.items| :: Equal(v.items[i], w.items[i])
    else if v.Dict? && w.Dict? then
      && |v.members| == |w.members|
      && forall i | 0 <= i < |v.members| :: HasMember(w.members, v.members[i].0, v.members[i].1)
    else v == w
  }

  predicate HasMember(members: seq<(string, Value)>, key: string, v: Value)
    decreases v, 1
  {
    exists j | 0 <= j < |members| :: key == members[j].0 && Equal(v, members[j].1)
  }

  /** s >= t, by code points. */
  predicate StringAtLeast(s: string, t: string) {
    |t| == 0 || (|s| > 0 && (s[0] > t[0] || (s[0] == t[0] && StringAtLeast(s[1..], t[1..]))))
  }

  predicate NumberAtLeast(v: Value, w: Value)
    requires IsNumber(v) && IsNumber(w)
  {
    if v == NotANumber || w == NotANumber then false
    else if v == Infinite(true) || w == Infinite(false) then true
    else IsFinite(v) && IsFinite(w) && NumberOf(v) >= NumberOf(w)
  }

  /** v >= w; none when it raises. */
  function AtLeast(v: Value, w: Value): Option<bool>
    decreases v, if v.List? then |v.items| + 1 else 0
  {
    if IsNumber(v) && IsNumber(w) then Some(NumberAtLeast(v, w))
    else if v.Str? && w.Str? then Some(StringAtLeast(v.s, w.s))
    else if v.List? && w.List? then ItemsAtLeast(v, w, 0)
    else None
  }

  /** Lists compare by their first items that are not equal, or by their lengths. */
  function ItemsAtLeast(v: Value, w: Value, i: nat): Option<bool>
    requires v.List? && w.List? && i <= |v.items| && i <= |w.items|
    decreases v, |v.items| - i
  {
    if i == |w.items| then Some(true)
    else if i == |v.items| then Some(false)
    else if Equal(v.items[i], w.items[i]) then ItemsAtLeast(v, w, i + 1)
    else AtLeast(v.items[i], w.items[i])
  }

  function Get(result: Result, key: string): Value {
    if key in result then result[key] else Nothing
  }

  predicate Truthy(v: Value) {
    match v
    case Nothing => false
    case Bool(b) => b
    case Int(n) => n != 0
    case Float(x) => x != 0.0
    case NotANumber => true
    case Infinite(_) => true
    case Str(s) => s != ""
    case List(items) => items != []
    case Dict(members) => members != []
  }

  /** int(x) of a finite float: towards zero. */
  function Truncated(x: real): int {
    if x >= 0.0 then x.Floor else -((-x).Floor)
  }

  function DigitsIn(s: string): nat {
    if |s| == 0 then 0 else DigitsIn(s[1..]) + if '0' <= s[0] <= '9' then 1 else 0
  }

  /** The digits of a number text, with single underscores between them. */
  function ParseDigits(s: string, sum: nat): Option<nat> {
    if |s| == 0 || !('0' <= s[0] <= '9') then None
    else
      var next := 10 * sum + (s[0] - '0') as nat;
      if |s| == 1 then Some(next)
      else if s[1] == '_' then ParseDigits(s[2..], next)
      else ParseDigits(s[1..], next)
  }

  /** White space that int() strips. */
  predicate IsSpace(c: char) {
    var n := c as int;
    || 9 <= n <= 13 || n == 0x20 || n == 0x85 || n == 0xA0 || n == 0x1680 || 0x2000 <= n <= 0x200A
    || n == 0x2028 || n == 0x2029 || n == 0x202F || n == 0x205F || n == 0x3000
  }

  function Stripped(s: string): string {
    if |s| > 0 && IsSpace(s[0]) then Stripped(s[1..])
    else if |s| > 0 && IsSpace(s[|s| - 1]) then Stripped(s[..|s| - 1])
    else s
  }

  /** int(s) of a text; none when it raises, as it does of too many digits. */
  function ParseInt(s: string): Option<int> {
    var t := Stripped(s);
    var signed := |t| > 0 && (t[0] == '-' || t[0] == '+');
    var digits := ParseDigits(if signed then t[1..] else t, 0);
    if digits.None? || DigitsIn(t) > MAX_DIGITS then None
    else
      var n: int := digits.value;
      Some(if signed && t[0] == '-' then -n else n)
  }

  /** int(v); none when it raises. */
  function ToInt(v: Value): Option<int> {
    match v
    case Nothing => None
    case Bool(b) => Some(if b then 1 else 0)
    case Int(n) => Some(n)
    case Float(x) => Some(Truncated(x))
    case Str(s) => ParseInt(s)
    case _ => None
  }

  /******* Matching *******/

  /** The key that a condition looks up, if it is a text; `suspicious` stands for `is_suspicious`. */
  function KeyOf(c: Condition): Option<string> {
    if c.field == Str("suspicious") then Some("is_suspicious")
    else if c.field.Str? then Some(c.field.s)
    else None
  }

  function Actual(c: Condition, result: Result): Value {
    if KeyOf(c).Some? then Get(result, KeyOf(c).value) else Nothing
  }

  /** Does the result match the condition; none when the lookup or the comparison raises. */
  function Matches(c: Condition, result: Result): Option<bool> {
    if c.field.List? || c.field.Dict? then None
    else
      match c.op
      case Eq => Some(Equal(Actual(c, result), c.value))
      case Gte => if Actual(c, result) == Nothing then Some(false) else AtLeast(Actual(c, result), c.value)
      case OtherOp => Some(false)
  }

  function Gain(result: Result): Rule -> int {
    (rule: Rule) => if Matches(rule.condition, result) == Some(true) then rule.weight else 0
  }

  predicate NoneRaises(rules: seq<Rule>, result: Result) {
    forall rule | rule in rules :: Matches(rule.condition, result).Some?
  }

  /** The sum of the weights of the matching rules; none when a rule raises. */
  function RuleScore(rules: seq<Rule>, result: Result): Option<int> {
    if NoneRaises(rules, result) then Some(SumBy(rules, Gain(result))) else None
  }

  /******* Fallback *******/

  function Confidence(result: Result): Value {
    if "confidence_score" in result then result["confidence_score"] else Int(1)
  }

  function Hint(result: Result): Value {
    if Truthy(Get(result, "severity_hint")) then result["severity_hint"] else Confidence(result)
  }

  /** How a product of floats is rounded: in the order of the products, and exactly where floats are exact. */
  ghost predicate Rounding(rounded: real -> real) {
    && (forall x: real, y: real :: x <= y ==> rounded(x) <= rounded(y))
    && rounded(0.0) == 0.0 && rounded(1.0) == 1.0 && rounded(2.0) == 2.0 && rounded(3.0) == 3.0
  }

  function HintScore(hint: Value, rounded: real -> real): Option<int> {
    if hint.Float? then
      var n := Truncated(rounded(hint.x * 3.0));
      Some(if n > 1 then n else 1)
    else if IsFloat(hint) then None
    else ToInt(hint)
  }

  predicate Suspicious(result: Result) {
    Truthy(Get(result, "is_suspicious"))
  }

  /** What compute_severity_score returns; none when it raises. */
  function Score(rules: seq<Rule>, result: Result, rounded: real -> real): Option<int> {
    var score := RuleScore(rules, result);
    if score == Some(0) && Suspicious(result) then HintScore(Hint(result), rounded) else score
  }

  method ComputeSeverityScore(rules: seq<Rule>, result: Result, rounded: real -> real) returns (score: Option<int>)
    ensures score == Score(rules, result, rounded)
  {
    var sum, i := 0, 0;
    while i < |rules|
      invariant 0 <= i <= |rules|
      invariant NoneRaises(rules[..i], result) && sum == SumBy(rules[..i], Gain(result))
    {
      var matches := Matches(rules[i].condition, result);
      if matches.None? {
        assert rules[i] in rules;
        return None;
      }
      assert rules[..i + 1][..i] == rules[..i];
      if matches.value {
        sum := sum + rules[i].weight;
      }
      i := i + 1;
    }
    assert rules[..i] == rules;
    if sum == 0 && Suspicious(result) {
      var hint := Hint(result);
      if IsFloat(hint) {
        if !hint.Float? {
          return None;
        }
        var n := Truncated(rounded(hint.x * 3.0));
        return Some(if n > 1 then n else 1);
      }
      return ToInt(hint);
    }
    return Some(sum);
  }

  /******* What conditions compare *******/

  /** The finite number that a value stands for; True and False count as one and zero. */
  ghost predicate Denotes(v: Value, x: real) {
    || (v == Bool(true) && x == 1.0) || (v == Bool(false) && x == 0.0)
    || (v.Int? && x == v.n as real) || (v.Float? && x == v.x)
  }

  /** Neither a list nor a dict. */
  predicate IsScalar(v: Value) {
    !v.List? && !v.Dict?
  }

  /** Numbers of one value, infinities of one sign, the same text, or None twice; a NaN is like nothing. */
  ghost predicate Alike(v: Value, w: Value) {
    || (exists x :: Denotes(v, x) && Denotes(w, x))
    || (v == w && (v.Infinite? || v.Str? || v == Nothing))
  }

  lemma DenotesIff(v: Value, x: real)
    ensures Denotes(v, x) <==> IsFinite(v) && NumberOf(v) == x
  {
  }

  lemma EqualIffAlike(v: Value, w: Value)
    requires IsScalar(v) && IsScalar(w)
    ensures Equal(v, w) <==> Alike(v, w)
  {
    if IsFinite(v) {
      DenotesIff(v, NumberOf(v));
      DenotesIff(w, NumberOf(v));
    }
    if x :| Denotes(v, x) && Denotes(w, x) {
      DenotesIff(v, x);
      DenotesIff(w, x);
    }
  }

  /** An `eq` condition on a scalar matches exactly a value that is alike, and a missing field counts as None. */
  lemma EqMatchesIff(key: string, value: Value, result: Result)
    requires key != "suspicious" && IsScalar(value) && (key in result ==> IsScalar(result[key]))
    ensures
      Matches(Condition(Str(key), Eq, value), result)
      == Some(Alike(if key in result then result[key] else Nothing, value))
  {
    EqualIffAlike(Get(result, key), value);
  }

  /** s is t, or continues it, or has the larger character where they first differ. */
  ghost predicate TextAtLeast(s: string, t: string) {
    t <= s || exists i | 0 <= i < |s| && i < |t| :: s[..i] == t[..i] && s[i] > t[i]
  }

  lemma {:induction false} StringAtLeastIff(s: string, t: string)
    ensures StringAtLeast(s, t) <==> TextAtLeast(s, t)
  {
    if |s| > 0 && |t| > 0 {
      if s[0] == t[0] {
        StringAtLeastIff(s[1..], t[1..]);
        TextAtLeastTail(s, t);
      } else if s[0] > t[0] {
        assert s[..0] == t[..0];
      }
    }
  }

  lemma {:induction false} TextAtLeastTail(s: string, t: string)
    requires |s| > 0 && |t| > 0 && s[0] == t[0]
    ensures TextAtLeast(s, t) <==> TextAtLeast(s[1..], t[1..])
  {
    assert s == [s[0]] + s[1..] && t == [t[0]] + t[1..];
    if i :| 0 <= i < |s| && i < |t| && s[..i] == t[..i] && s[i] > t[i] {
      assert s[1..][..i - 1] == s[..i][1..] && t[1..][..i - 1] == t[..i][1..];
    }
    if i :| 0 <= i < |s[1..]| && i < |t[1..]| && s[1..][..i] == t[1..][..i] && s[1..][i] > t[1..][i] {
      assert s[..i + 1] == [s[0]] + s[1..][..i] && t[..i + 1] == [t[0]] + t[1..][..i];
    }
  }

  /** The number v is at least the number w; a NaN never is, and nothing is at least a NaN. */
  ghost predicate NoLess(v: Value, w: Value) {
    || (exists x, y :: Denotes(v, x) && Denotes(w, y) && x >= y)
    || (v == Infinite(true) && w != NotANumber) || (w == Infinite(false) && v != NotANumber)
  }

  lemma NumberAtLeastIff(v: Value, w: Value)
    requires IsNumber(v) && IsNumber(w)
    ensures NumberAtLeast(v, w) <==> NoLess(v, w)
  {
    if IsFinite(v) && IsFinite(w) {
      DenotesIff(v, NumberOf(v));
      DenotesIff(w, NumberOf(w));
    }
    if x, y :| Denotes(v, x) && Denotes(w, y) && x >= y {
      DenotesIff(v, x);
      DenotesIff(w, y);
    }
  }

  /**
   A `gte` condition on a scalar matches exactly a number no less or a text at least as large; a missing field or None
   never matches, and comparing anything else raises.
   */
  lemma GteMatchesIff(key: string, value: Value, result: Result)
    requires key != "suspicious" && IsScalar(value) && (key in result ==> IsScalar(result[key]))
    ensures
      var v := if key in result then result[key] else Nothing;
      Matches(Condition(Str(key), Gte, value), result)
      == if v == Nothing then Some(false)
         else if IsNumber(v) && IsNumber(value) then Some(NoLess(v, value))
         else if v.Str? && value.Str? then Some(TextAtLeast(v.s, value.s))
         else None
  {
    var v := Get(result, key);
    if IsNumber(v) && IsNumber(value) {
      NumberAtLeastIff(v, value);
    } else if v.Str? && value.Str? {
      StringAtLeastIff(v.s, value.s);
    }
  }

  /** An operator of another name never matches, and a field that is a list or a dict raises whatever the operator. */
  lemma OddConditions(c: Condition, result: Result)
    ensures c.field.List? || c.field.Dict? ==> Matches(c, result) == None
    ensures IsScalar(c.field) && c.op == OtherOp ==> Matches(c, result) == Some(false)
    ensures IsScalar(c.field) && !c.field.Str? && c.op == Gte ==> Matches(c, result) == Some(false)
  {
  }

  /** A rule on `suspicious` is one on `is_suspicious`. */
  lemma SuspiciousIsAlias(op: Op, value: Value, result: Result)
    ensures
      Matches(Condition(Str("suspicious"), op, value), result)
      == Matches(Condition(Str("is_suspicious"), op, value), result)
  {
  }

  /** The rule that a suspicious result be so gives its weight to suspicious results, and nothing to others. */
  lemma SuspicionRuleScores(weight: int, suspicious: bool, result: Result)
    requires "is_suspicious" in result && result["is_suspicious"] == Bool(suspicious)
    ensures
      var rule := Rule(Condition(Str("suspicious"), Eq, Bool(true)), weight);
      RuleScore([rule], result) == Some(if suspicious then weight else 0)
  {
    var rule := Rule(Condition(Str("suspicious"), Eq, Bool(true)), weight);
    SuspiciousIsAlias(Eq, Bool(true), result);
    EqMatchesIff("is_suspicious", Bool(true), result);
    assert Denotes(Bool(true), 1.0);
    assert Alike(Bool(suspicious), Bool(true)) <==> suspicious;
    assert [rule][..0] == [];
    assert SumBy([rule], Gain(result)) == SumBy([], Gain(result)) + Gain(result)(rule);
  }

  /** Values that count as false: None, False, zero, and what is empty. */
  lemma TruthyIff(v: Value)
    ensures
      !Truthy(v)
      <==> v in {Nothing, Bool(false), Int(0), Float(0.0), Str(""), List([]), Dict([])}
  {
  }

  /** int() of a float is the nearest integer that is no farther from zero. */
  lemma TruncatedIsTowardsZero(x: real)
    ensures
      var n := Truncated(x);
      if x >= 0.0 then 0 <= n && n as real <= x < (n + 1) as real
      else n <= 0 && (n - 1) as real < x <= n as real
  {
  }

  /** What is left of a number that is rounded down to an integer, and is at least one. */
  predicate CountsAs(x: real, n: int) {
    if x < 2.0 then n == 1 else n as real <= x < (n + 1) as real
  }

  /**
   The fallback: without any weight a suspicious result scores its severity hint or, if that counts as false, its
   confidence or, if there is none, one; an integer as it is, a float three times, rounded down, and at least one.
   */
  lemma FallbackScores(rules: seq<Rule>, result: Result, rounded: real -> real)
    requires RuleScore(rules, result) == Some(0) && Suspicious(result)
    ensures
      var hinted := "severity_hint" in result && Truthy(result["severity_hint"]);
      var score := Score(rules, result, rounded);
      if !hinted && "confidence_score" !in result then score == Some(1)
      else
        var hint := if hinted then result["severity_hint"] else result["confidence_score"];
        && (hint.Int? ==> score == Some(hint.n))
        && (hint.Float? ==> score.Some? && CountsAs(rounded(hint.x * 3.0), score.value))
        && (hint.Str? ==> score == ParseInt(hint.s))
        && (hint == Nothing || hint == NotANumber || hint.Infinite? || !IsScalar(hint) ==> score == None)
  {
  }

  predicate HoldsNaN(v: Value) {
    || v == NotANumber
    || (v.List? && exists i | 0 <= i < |v.items| :: HoldsNaN(v.items[i]))
    || (v.Dict? && exists i | 0 <= i < |v.members| :: HoldsNaN(v.members[i].1))
  }

  /** A value without a NaN inside equals itself. */
  lemma {:induction false} EqualToItself(v: Value)
    requires !HoldsNaN(v)
    ensures Equal(v, v)
  {
    if v.List? {
      forall i | 0 <= i < |v.items| ensures Equal(v.items[i], v.items[i]) {
        EqualToItself(v.items[i]);
      }
    } else if v.Dict? {
      forall i | 0 <= i < |v.members| ensures HasMember(v.members, v.members[i].0, v.members[i].1) {
        EqualToItself(v.members[i].1);
      }
    }
  }

  /** Lists that agree before the k-th items are compared by these and, where one has ended, by their lengths. */
  lemma {:induction false} FirstDifferenceDecides(v: Value, w: Value, i: nat, k: nat)
    requires v.List? && w.List? && i <= k <= |v.items| && k <= |w.items|
    requires forall j | 0 <= j < k :: Equal(v.items[j], w.items[j])
    requires k < |v.items| && k < |w.items| ==> !Equal(v.items[k], w.items[k])
    ensures
      ItemsAtLeast(v, w, i)
      == if k == |v.items| || k == |w.items| then Some(|v.items| >= |w.items|) else AtLeast(v.items[k], w.items[k])
    decreases k - i
  {
    if i < k {
      FirstDifferenceDecides(v, w, i + 1, k);
    }
  }

  /******* The rule score *******/

  lemma SameRules(rules: seq<Rule>, permuted: seq<Rule>)
    requires multiset(rules) == multiset(permuted)
    ensures forall rule :: rule in rules <==> rule in permuted
  {
    forall rule ensures rule in rules <==> rule in permuted {
      assert rule in multiset(rules) <==> rule in multiset(permuted);
    }
  }

  /** The order in which the database returns the rules does not matter. */
  lemma ScoreIgnoresOrder(rules: seq<Rule>, permuted: seq<Rule>, result: Result, rounded: real -> real)
    requires multiset(rules) == multiset(permuted)
    ensures RuleScore(rules, result) == RuleScore(permuted, result)
    ensures Score(rules, result, rounded) == Score(permuted, result, rounded)
  {
    SameRules(rules, permuted);
    SumPermuted(rules, permuted, Gain(result));
  }

  /** Rule lists score separately, and either one raises for both. */
  lemma RuleScoreAdds(rules: seq<Rule>, more: seq<Rule>, result: Result)
    ensures
      RuleScore(rules + more, result)
      == if RuleScore(rules, result).Some? && RuleScore(more, result).Some?
         then Some(RuleScore(rules, result).value + RuleScore(more, result).value) else None
  {
    SumConcat(rules, more, Gain(result));
    forall rule ensures rule in rules + more <==> rule in rules || rule in more {
    }
  }

  lemma {:induction false} StringOrder(s: string, t: string, u: string)
    requires StringAtLeast(s, t) && StringAtLeast(t, u)
    ensures StringAtLeast(s, u)
  {
    if |u| > 0 && s[0] == t[0] == u[0] {
      StringOrder(s[1..], t[1..], u[1..]);
    }
  }

  /** The value goes up: from None to anything, or to a number or a text at least as large. */
  predicate Raised(v: Value, w: Value) {
    v == Nothing || ((IsNumber(v) || v.Str?) && AtLeast(w, v) == Some(true))
  }

  /** No `eq` condition looks at the key. */
  ghost predicate OnlyGte(rules: seq<Rule>, key: string) {
    forall rule | rule in rules && KeyOf(rule.condition) == Some(key) :: rule.condition.op != Eq
  }

  lemma RaisingKeepsMatch(c: Condition, result: Result, key: string, value: Value)
    requires KeyOf(c) == Some(key) ==> c.op != Eq
    requires Raised(Get(result, key), value) && Matches(c, result[key := value]).Some?
    ensures Matches(c, result).Some?
    ensures Matches(c, result) == Some(true) ==> Matches(c, result[key := value]) == Some(true)
  {
    if KeyOf(c) == Some(key) && c.op == Gte {
      var v := Get(result, key);
      if v.Str? && value.Str? && c.value.Str? && StringAtLeast(v.s, c.value.s) {
        StringOrder(value.s, v.s, c.value.s);
      }
    }
  }

  /**
   With non-negative weights, raising a field that only `gte` conditions look at never lowers the rule score, and it
   raises no error that was there only before.
   */
  lemma RuleScoreIsMonotone(rules: seq<Rule>, result: Result, key: string, value: Value)
    requires forall rule | rule in rules :: rule.weight >= 0
    requires OnlyGte(rules, key) && Raised(Get(result, key), value)
    requires RuleScore(rules, result[key := value]).Some?
    ensures RuleScore(rules, result).Some?
    ensures RuleScore(rules, result).value <= RuleScore(rules, result[key := value]).value
  {
    var raised := result[key := value];
    forall rule | rule in rules
      ensures Matches(rule.condition, result).Some? && Gain(result)(rule) <= Gain(raised)(rule) {
      RaisingKeepsMatch(rule.condition, result, key, value);
    }
    SumMonotone(rules, Gain(result), Gain(raised));
  }

  /******* The score *******/

  lemma {:induction false} GainsAreNonNegative(rules: seq<Rule>, result: Result)
    requires forall rule | rule in rules :: rule.weight >= 0
    ensures SumBy(rules, Gain(result)) >= 0
  {
    if |rules| > 0 {
      GainsAreNonNegative(rules[..|rules| - 1], result);
      assert rules[|rules| - 1] in rules;
    }
  }

  /**
   With non-negative weights a score is negative exactly if no weight is gained and the fallback takes a negative
   integer for its hint.
   */
  lemma NegativeScoreIff(rules: seq<Rule>, result: Result, rounded: real -> real)
    requires forall rule | rule in rules :: rule.weight >= 0
    ensures
      Score(rules, result, rounded).Some? && Score(rules, result, rounded).value < 0
      <==>
      && RuleScore(rules, result) == Some(0) && Suspicious(result) && !IsFloat(Hint(result))
      && ToInt(Hint(result)).Some? && ToInt(Hint(result)).value < 0
  {
    GainsAreNonNegative(rules, result);
  }

  /**
   When no weight is gained, a suspicious result with a float hint in [0, 1] scores between 1 and 3, whatever the
   rounding: 3 if three times the hint rounds to three, 2 if it rounds to less but at least two, 1 otherwise.
   */
  lemma ConfidenceScores(rules: seq<Rule>, result: Result, rounded: real -> real)
    requires RuleScore(rules, result) == Some(0) && Suspicious(result) && Rounding(rounded)
    requires Hint(result).Float? && 0.0 <= Hint(result).x <= 1.0
    ensures
      var tripled := rounded(Hint(result).x * 3.0);
      && 0.0 <= tripled <= 3.0
      && Score(rules, result, rounded) == Some(if tripled < 2.0 then 1 else if tripled < 3.0 then 2 else 3)
  {
    var x := Hint(result).x;
    assert 0.0 <= x * 3.0 <= 3.0;
    assert rounded(0.0) <= rounded(x * 3.0) <= rounded(3.0);
  }

  /******* When raising a field lowers the score *******/

  /** Everything that raising one field under non-negative weights needs for its two scores to be compared. */
  ghost predicate Raising(rules: seq<Rule>, result: Result, key: string, value: Value, rounded: real -> real) {
    && (forall rule | rule in rules :: rule.weight >= 0) && OnlyGte(rules, key)
    && Raised(Get(result, key), value) && RuleScore(rules, result[key := value]).Some?
    && Score(rules, result, rounded).Some? && Score(rules, result[key := value], rounded).Some?
  }

  ghost predicate ScoreFalls(rules: seq<Rule>, result: Result, key: string, value: Value, rounded: real -> real)
    requires Raising(rules, result, key, value, rounded)
  {
    Score(rules, result[key := value], rounded).value < Score(rules, result, rounded).value
  }

  /** A field that the fallback does not read. */
  predicate RuleField(key: string) {
    key != "is_suspicious" && key != "severity_hint" && key != "confidence_score"
  }

  /**
   Raising a field that only rules read lowers the score exactly if it makes the first weight, of a suspicious result
   that had gained none, and that weight is less than what the fallback gave.
   */
  lemma RuleFieldLowersScoreIff(rules: seq<Rule>, result: Result, key: string, value: Value, rounded: real -> real)
    requires Raising(rules, result, key, value, rounded) && RuleField(key)
    ensures
      ScoreFalls(rules, result, key, value, rounded)
      <==>
      && RuleScore(rules, result) == Some(0) && Suspicious(result)
      && 0 < RuleScore(rules, result[key := value]).value < HintScore(Hint(result), rounded).value
  {
    RuleScoreIsMonotone(rules, result, key, value);
    GainsAreNonNegative(rules, result);
    assert Hint(result[key := value]) == Hint(result) && Suspicious(result[key := value]) == Suspicious(result);
  }

  /**
   Raising the suspicion itself lowers the score exactly if no weight was gained before and: a weight is gained that is
   less than the fallback was, or none is and a positive fallback is taken away, or none is and a negative one is
   brought in.
   */
  lemma SuspicionLowersScoreIff(rules: seq<Rule>, result: Result, value: Value, rounded: real -> real)
    requires Raising(rules, result, "is_suspicious", value, rounded)
    ensures
      var before, gained := HintScore(Hint(result), rounded), RuleScore(rules, result["is_suspicious" := value]).value;
      ScoreFalls(rules, result, "is_suspicious", value, rounded)
      <==>
      && RuleScore(rules, result) == Some(0) && before.Some?
      && if gained > 0 then Suspicious(result) && gained < before.value
         else if Suspicious(result) then !Truthy(value) && before.value > 0
         else Truthy(value) && before.value < 0
  {
    RuleScoreIsMonotone(rules, result, "is_suspicious", value);
    GainsAreNonNegative(rules, result);
    assert Hint(result["is_suspicious" := value]) == Hint(result);
  }

  /** The value is a number that floats can represent, or no float. */
  predicate Representable(v: Value, rounded: real -> real) {
    v.Float? ==> rounded(v.x) == v.x
  }

  predicate LessThan(m: Option<int>, n: Option<int>) {
    m.Some? && n.Some? && m.value < n.value
  }

  /** As a hint the value counts as an integer, and as one below the bound. */
  predicate IntegerBelow(v: Value, bound: int) {
    !IsFloat(v) && ToInt(v).Some? && ToInt(v).value < bound
  }

  /** The raised value scores less as a hint: a text of a smaller number, or an integer below a float's score. */
  predicate RaisedToLess(v: Value, w: Value, rounded: real -> real) {
    if v.Str? then w.Str? && ParseInt(v.s).Some? && IntegerBelow(w, ParseInt(v.s).value)
    else v.Float? && IntegerBelow(w, HintScore(v, rounded).value)
  }

  /**
   A number or a text that is raised scores less as a hint exactly if a float gives way to an integer below its score,
   or a number text to one of a smaller number. Of a float the fallback counts three times the value and at least one,
   of an integer the value.
   */
  lemma RaisedHintScoresLessIff(v: Value, w: Value, rounded: real -> real)
    requires v != Nothing && Raised(v, w) && Rounding(rounded) && Representable(w, rounded)
    requires HintScore(v, rounded).Some? && HintScore(w, rounded).Some?
    ensures HintScore(w, rounded).value < HintScore(v, rounded).value <==> RaisedToLess(v, w, rounded)
  {
    if w.Float? {
      if v.Float? {
        assert rounded(v.x * 3.0) <= rounded(w.x * 3.0);
      } else if w.x >= 0.0 {
        assert w.x <= w.x * 3.0;
        assert rounded(w.x) <= rounded(w.x * 3.0);
      }
    }
  }

  /**
   Raising the confidence lowers the score exactly if the result is suspicious, no weight was gained before, and: the
   weight that is gained is less than the fallback was; or none is, there is no severity hint, and the new confidence
   is an integer below one where none was given, or the confidence is raised to less.
   */
  lemma ConfidenceLowersScoreIff(rules: seq<Rule>, result: Result, value: Value, rounded: real -> real)
    requires Raising(rules, result, "confidence_score", value, rounded)
    requires Rounding(rounded) && Representable(value, rounded)
    ensures
      var gained := RuleScore(rules, result["confidence_score" := value]).value;
      ScoreFalls(rules, result, "confidence_score", value, rounded)
      <==>
      && RuleScore(rules, result) == Some(0) && Suspicious(result)
      && if gained > 0 then gained < HintScore(Hint(result), rounded).value
         else
           && !Truthy(Get(result, "severity_hint"))
           && if "confidence_score" in result then RaisedToLess(result["confidence_score"], value, rounded)
              else IntegerBelow(value, 1)
  {
    var raised := result["confidence_score" := value];
    RuleScoreIsMonotone(rules, result, "confidence_score", value);
    GainsAreNonNegative(rules, result);
    assert Suspicious(raised) == Suspicious(result);
    assert Get(raised, "severity_hint") == Get(result, "severity_hint");
    if RuleScore(rules, raised) == Some(0) && Suspicious(result) && !Truthy(Get(result, "severity_hint")) {
      assert Hint(raised) == value;
      if "confidence_score" in result {
        RaisedHintScoresLessIff(result["confidence_score"], value, rounded);
      }
    }
  }

  /**
   Raising the severity hint lowers the score exactly if the result is suspicious, no weight was gained before, and: the
   weight that is gained is less than the fallback was; or none is and the hint is raised to less, or takes the place
   of a confidence that scores more, or is a negative number that gives way, as zero, to a confidence that is an
   integer below its score.
   */
  lemma SeverityHintLowersScoreIff(rules: seq<Rule>, result: Result, value: Value, rounded: real -> real)
    requires Raising(rules, result, "severity_hint", value, rounded)
    requires Rounding(rounded) && Representable(value, rounded)
    ensures
      var gained := RuleScore(rules, result["severity_hint" := value]).value;
      var v, confidence := Get(result, "severity_hint"), Confidence(result);
      ScoreFalls(rules, result, "severity_hint", value, rounded)
      <==>
      && RuleScore(rules, result) == Some(0) && Suspicious(result)
      && if gained > 0 then gained < HintScore(Hint(result), rounded).value
         else if Truthy(v) && Truthy(value) then RaisedToLess(v, value, rounded)
         else if Truthy(value) then LessThan(HintScore(value, rounded), HintScore(confidence, rounded))
         else Truthy(v) && IntegerBelow(confidence, if v.Int? then v.n else 1)
  {
    var raised, v := result["severity_hint" := value], Get(result, "severity_hint");
    RuleScoreIsMonotone(rules, result, "severity_hint", value);
    GainsAreNonNegative(rules, result);
    assert Suspicious(raised) == Suspicious(result) && Confidence(raised) == Confidence(result);
    if RuleScore(rules, raised) == Some(0) && Suspicious(result) {
      if Truthy(v) && Truthy(value) {
        RaisedHintScoresLessIff(v, value, rounded);
      } else if Truthy(v) {
        NegativeGivesWay(v, value, rounded);
      }
    }
  }

  /** A value that counts as true and can be raised to one that does not is a negative number. */
  lemma NegativeGivesWay(v: Value, w: Value, rounded: real -> real)
    requires Truthy(v) && Raised(v, w) && !Truthy(w) && Rounding(rounded) && HintScore(v, rounded).Some?
    ensures if v.Int? then v.n < 0 else v.Float? && HintScore(v, rounded) == Some(1)
  {
    if v.Float? {
      assert v.x < 0.0;
      assert rounded(v.x * 3.0) <= rounded(0.0);
    }
  }

  /******* Number texts *******/

  /** A number text without sign, spaces, underscores and leading zeros. */
  predicate Numeral(s: string) {
    AllDigits(s) && |s| <= MAX_DIGITS && (s[0] == '0' ==> |s| == 1)
  }

  predicate AllDigits(s: string) {
    |s| > 0 && forall i | 0 <= i < |s| :: '0' <= s[i] <= '9'
  }

  function Power10(n: nat): nat {
    if n == 0 then 1 else 10 * Power10(n - 1)
  }

  lemma {:induction false} PowersGrow(m: nat, n: nat)
    requires m <= n
    ensures 1 <= Power10(m) <= Power10(n)
  {
    if m < n {
      PowersGrow(m, n - 1);
    } else if n > 0 {
      PowersGrow(m - 1, n - 1);
    }
  }

  lemma {:induction false} DigitsParse(s: string, sum: nat)
    requires AllDigits(s)
    ensures ParseDigits(s, sum).Some? && DigitsIn(s) == |s|
    ensures sum * Power10(|s|) <= ParseDigits(s, sum).value < (sum + 1) * Power10(|s|)
  {
    var next := 10 * sum + (s[0] - '0') as nat;
    if |s| > 1 {
      DigitsParse(s[1..], next);
      TenTimes(sum, next, Power10(|s| - 1));
    } else {
      assert Power10(1) == 10 * Power10(0);
    }
  }

  lemma Scaled(m: nat, n: nat, power: nat)
    requires m <= n
    ensures m * power <= n * power
  {
  }

  lemma TenTimes(sum: nat, next: nat, power: nat)
    requires 10 * sum <= next <= 10 * sum + 9
    ensures sum * (10 * power) <= next * power && (next + 1) * power <= (sum + 1) * (10 * power)
  {
    Scaled(10 * sum, next, power);
    Scaled(next + 1, 10 * sum + 10, power);
  }

  /** Digits of one length that follow a smaller number make a smaller number. */
  lemma {:induction false} DigitsAfterLess(s: string, t: string, m: nat, n: nat)
    requires AllDigits(s) && AllDigits(t) && |s| == |t| && m < n
    ensures ParseDigits(s, m).Some? && ParseDigits(t, n).Some?
    ensures ParseDigits(s, m).value <= ParseDigits(t, n).value
  {
    DigitsParse(s, m);
    DigitsParse(t, n);
    Scaled(m + 1, n, Power10(|s|));
  }

  /** Digits of one length are in the order of their texts. */
  lemma {:induction false} DigitsInOrder(s: string, t: string, n: nat)
    requires AllDigits(s) && AllDigits(t) && |s| == |t| && StringAtLeast(t, s)
    ensures ParseDigits(s, n).Some? && ParseDigits(t, n).Some?
    ensures ParseDigits(s, n).value <= ParseDigits(t, n).value
  {
    if |s| > 1 {
      var m', n' := 10 * n + (s[0] - '0') as nat, 10 * n + (t[0] - '0') as nat;
      if s[0] == t[0] {
        DigitsInOrder(s[1..], t[1..], n');
      } else {
        DigitsAfterLess(s[1..], t[1..], m', n');
      }
    }
  }

  /** The size of a numeral is that of its length. */
  lemma {:induction false} NumeralParses(s: string)
    requires Numeral(s)
    ensures ParseInt(s).Some? && ParseDigits(s, 0).Some? && ParseInt(s).value == ParseDigits(s, 0).value
    ensures ParseInt(s).value < Power10(|s|) && (|s| > 1 ==> Power10(|s| - 1) <= ParseInt(s).value)
  {
    assert Stripped(s) == s;
    DigitsParse(s, 0);
    if |s| > 1 {
      LeadingDigit(s);
    }
  }

  lemma {:induction false} LeadingDigit(s: string)
    requires AllDigits(s) && |s| > 1 && s[0] != '0'
    ensures ParseDigits(s, 0).Some? && Power10(|s| - 1) <= ParseDigits(s, 0).value
  {
    var first := (s[0] - '0') as nat;
    DigitsParse(s[1..], first);
    Scaled(1, first, Power10(|s| - 1));
  }

  /**
   Texts compare by their characters and hints by their numbers: of two numerals the larger text is the smaller number
   exactly if it is shorter.
   */
  lemma RaisedNumeralIsLessIff(s: string, t: string)
    requires Numeral(s) && Numeral(t) && StringAtLeast(t, s)
    ensures ParseInt(s).Some? && ParseInt(t).Some?
    ensures ParseInt(t).value < ParseInt(s).value <==> |t| < |s|
  {
    NumeralParses(s);
    NumeralParses(t);
    if |t| < |s| {
      PowersGrow(|t|, |s| - 1);
    } else if |s| < |t| {
      PowersGrow(|s|, |t| - 1);
    } else {
      DigitsInOrder(s, t, 0);
    }
  }

  /** The text that Python writes for a number. */
  function DigitsOf(n: nat): (s: string)
    ensures AllDigits(s)
  {
    (if n < 10 then "" else DigitsOf(n / 10)) + [('0' as int + n % 10) as char]
  }

  function TextOf(n: int): string {
    if n < 0 then "-" + DigitsOf(-n) else DigitsOf(n)
  }

  /** One more digit at the end. */
  lemma {:induction false} ParseOneMore(s: string, c: char, sum: nat)
    requires AllDigits(s) && '0' <= c <= '9'
    ensures AllDigits(s + [c]) && ParseDigits(s, sum).Some?
    ensures ParseDigits(s + [c], sum) == Some(10 * ParseDigits(s, sum).value + (c - '0') as nat)
  {
    var next := 10 * sum + (s[0] - '0') as nat;
    DigitsParse(s, sum);
    assert (s + [c])[1..] == s[1..] + [c];
    if |s| > 1 {
      assert s[1] != '_' && (s + [c])[1] == s[1];
      ParseOneMore(s[1..], c, next);
    } else {
      assert (s + [c])[1] == c && (s + [c])[1..] == [c];
    }
  }

  lemma {:induction false} ParseUndoesDigits(n: nat)
    ensures ParseDigits(DigitsOf(n), 0) == Some(n)
  {
    if n >= 10 {
      ParseUndoesDigits(n / 10);
      ParseOneMore(DigitsOf(n / 10), ('0' as int + n % 10) as char, 0);
    }
  }

  lemma DigitsAreStripped(s: string)
    requires |s| > 0 && !IsSpace(s[0]) && !IsSpace(s[|s| - 1])
    ensures Stripped(s) == s
  {
  }

  lemma {:induction false} DigitsCounted(s: string)
    requires AllDigits(s)
    ensures DigitsIn(s) == |s| && DigitsIn("-" + s) == |s|
  {
    DigitsParse(s, 0);
    assert ("-" + s)[1..] == s;
  }

  /** int() reads back every integer that Python writes with at most 4300 digits. */
  lemma {:induction false} IntUndoesStr(n: int)
    requires |DigitsOf(if n < 0 then -n else n)| <= 4300
    ensures ParseInt(TextOf(n)) == Some(n)
  {
    var digits := DigitsOf(if n < 0 then -n else n);
    ParseUndoesDigits(if n < 0 then -n else n);
    DigitsCounted(digits);
    DigitsAreStripped(TextOf(n));
    if n < 0 {
      assert TextOf(n)[1..] == digits;
    }
  }

  /** int() raises of more digits. */
  lemma {:induction false} LongNumberRaises(s: string)
    requires AllDigits(s) && |s| > 4300
    ensures ParseInt(s) == None
  {
    DigitsCounted(s);
    DigitsAreStripped(s);
  }

  /** White space of Unicode around a number text makes no difference. */
  lemma {:induction false} SpaceIsStripped(s: string, c: char)
    requires
      var n := c as int;
      || n in {0x09, 0x0A, 0x0B, 0x0C, 0x0D, 0x20, 0x85, 0xA0, 0x1680, 0x2028, 0x2029, 0x202F, 0x205F, 0x3000}
      || 0x2000 <= n <= 0x200A
    ensures ParseInt([c] + s) == ParseInt(s) == ParseInt(s + [c])
  {
    assert ([c] + s)[1..] == s;
    StrippedBehind(s, c);
  }

  lemma {:induction false} StrippedBehind(s: string, c: char)
    requires IsSpace(c)
    ensures Stripped(s + [c]) == Stripped(s)
    decreases |s|
  {
    if |s| == 0 {
      assert s + [c] == [c] && [c][1..] == s;
    } else if IsSpace(s[0]) {
      StrippedBehind(s[1..], c);
      assert (s + [c])[1..] == s[1..] + [c];
    } else {
      assert (s + [c])[..|s|] == s;
    }
  }

  /** A single underscore between digits makes no difference. */
  lemma {:induction false} UnderscoreIsSkipped(s: string, t: string, sum: nat)
    requires AllDigits(s) && AllDigits(t)
    ensures ParseDigits(s + "_" + t, sum) == ParseDigits(s + t, sum)
  {
    var next := 10 * sum + (s[0] - '0') as nat;
    var joined, plain := s + "_" + t, s + t;
    if |s| > 1 {
      assert joined[1..] == s[1..] + "_" + t && plain[1..] == s[1..] + t;
      assert joined[1] != '_' && plain[1] != '_';
      UnderscoreIsSkipped(s[1..], t, next);
    } else {
      assert joined[1] == '_' && joined[2..] == t;
      assert plain[1] != '_' && plain[1..] == t;
    }
  }

  /******* Scores that fall *******/

  /** No rule at all: a confidence of 0.9 scores two, and raised to the integer 1 it scores one. */
  lemma RaisingCanLowerScore(rounded: real -> real) returns (result: Result)
    requires Rounding(rounded)
    ensures Raising([], result, "confidence_score", Int(1), rounded)
    ensures ScoreFalls([], result, "confidence_score", Int(1), rounded)
  {
    result := map["is_suspicious" := Bool(true), "confidence_score" := Float(0.9)];
    assert rounded(2.0) <= rounded(0.9 * 3.0) <= rounded(3.0);
    assert RuleScore([], result) == Some(0) && RuleScore([], result["confidence_score" := Int(1)]) == Some(0);
    ConfidenceLowersScoreIff([], result, Int(1), rounded);
  }

  /** As texts nine is more than ten. */
  lemma {:induction false} NineAfterTen()
    ensures Raised(Str("10"), Str("9")) && ParseInt("9").Some? && ParseInt("10").Some?
    ensures ParseInt("9").value < ParseInt("10").value
  {
    assert "9"[0] > "10"[0];
    RaisedNumeralIsLessIff("10", "9");
  }

  /** The hint "10" scores ten, and raised to "9" it scores nine. */
  lemma {:induction false} RaisingTextCanLowerScore(rounded: real -> real) returns (result: Result)
    requires Rounding(rounded)
    ensures Raising([], result, "severity_hint", Str("9"), rounded)
    ensures ScoreFalls([], result, "severity_hint", Str("9"), rounded)
  {
    result := map["is_suspicious" := Bool(true), "severity_hint" := Str("10")];
    NineAfterTen();
    assert RuleScore([], result) == Some(0) && RuleScore([], result["severity_hint" := Str("9")]) == Some(0);
    SeverityHintLowersScoreIff([], result, Str("9"), rounded);
  }
}
