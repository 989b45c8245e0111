/** Effects, fact values, the operator table, and policy bundles. */
module Policy {
  import opened Order

  // ---------------------------------------------------------------------------------------
  // Effects
  // ---------------------------------------------------------------------------------------

  datatype Effect = Allow | LogAndAllow | RequireHitl | Block

  function Rank(e: Effect): nat {
    match e
    case Allow => 0
    case LogAndAllow => 1
    case RequireHitl => 2
    case Block => 3
  }

  predicate Restrictive(e: Effect) { Rank(e) >= Rank(RequireHitl) }

  /** The call may be dispatched right now. */
  predicate Permits(e: Effect) { e == Allow || e == LogAndAllow }

  /** Both are about the two ends of one order. */
  lemma EffectOrder(e: Effect)
    ensures Rank(Allow) < Rank(LogAndAllow) < Rank(RequireHitl) < Rank(Block)
    ensures Restrictive(e) <==> e == RequireHitl || e == Block
    ensures Permits(e) <==> !Restrictive(e)
  {
  }

  function Stricter(a: Effect, b: Effect): Effect { if Rank(a) >= Rank(b) then a else b }

  // ---------------------------------------------------------------------------------------
  // Facts
  // ---------------------------------------------------------------------------------------

  /** `Absent` is Python's None; `Opaque` an attribute of a built-in type, such as a bound method. */
  datatype Value =
    | Unknown
    | Absent
    | Bool(b: bool)
    | Num(n: real)
    | Str(s: string)
    | List(items: seq<Value>)
    | Dict(fields: map<string, Value>)
    | Opaque(name: string)

  /** Nothing in the value is UNKNOWN. */
  predicate Known(v: Value) {
    match v
    case Unknown => false
    case List(items) => forall x | x in items :: Known(x)
    case Dict(fields) => forall k | k in fields :: Known(fields[k])
    case _ => true
  }

  type PlainValue = v: Value | Known(v) witness Absent

  /** Library functions the engine calls: glob and regex matching, case folding, number parsing, the domains of the
      addresses in a text, and attribute access on values that are not mappings, which yields plain Python objects,
      never the sentinel. Nothing else is known of them. */
  datatype Runtime = Runtime(
    glob: (string, string) -> bool,
    search: (string, string) -> bool,
    fold: string -> string,
    number: string -> real,
    mailDomains: string -> seq<string>,
    scalarAttr: (Value, string) -> Option<PlainValue>,
    listAttr: string -> Option<PlainValue>)

  /** Python's `==` */
  predicate Equal(a: Value, b: Value) {
    match (a, b)
    case (Bool(x), Num(n)) => n == (if x then 1.0 else 0.0)
    case (Num(n), Bool(x)) => n == (if x then 1.0 else 0.0)
    case (List(xs), List(ys)) => |xs| == |ys| && forall i | 0 <= i < |xs| :: Equal(xs[i], ys[i])
    case (Dict(f), Dict(g)) => f.Keys == g.Keys && forall k | k in f :: Equal(f[k], g[k])
    case _ => a == b
  }

  lemma {:induction false} EqualReflexive(v: Value)
    ensures Equal(v, v)
  {
    match v
    case List(items) =>
      forall i | 0 <= i < |items| ensures Equal(items[i], items[i]) {
        EqualReflexive(items[i]);
      }
    case Dict(fields) =>
      forall k | k in fields ensures Equal(fields[k], fields[k]) {
        EqualReflexive(fields[k]);
      }
    case _ =>
  }

  lemma {:induction false} EqualSymmetric(a: Value, b: Value)
    requires Equal(a, b)
    ensures Equal(b, a)
  {
    match (a, b)
    case (List(xs), List(ys)) =>
      forall i | 0 <= i < |xs| ensures Equal(ys[i], xs[i]) {
        EqualSymmetric(xs[i], ys[i]);
      }
    case (Dict(f), Dict(g)) =>
      forall k | k in f ensures Equal(g[k], f[k]) {
        EqualSymmetric(f[k], g[k]);
      }
    case _ =>
  }

  /** Equality is an equivalence that takes True for 1 and False for 0, tells all other kinds apart, and looks
      into lists and dictionaries. */
  lemma {:induction false} EqualTransitive(a: Value, b: Value, c: Value)
    requires Equal(a, b) && Equal(b, c)
    ensures Equal(a, c)
  {
    match (a, b, c)
    case (List(xs), List(ys), List(zs)) =>
      forall i | 0 <= i < |xs| ensures Equal(xs[i], zs[i]) {
        EqualTransitive(xs[i], ys[i], zs[i]);
      }
    case (Dict(f), Dict(g), Dict(h)) =>
      forall k | k in f ensures Equal(f[k], h[k]) {
        EqualTransitive(f[k], g[k], h[k]);
      }
    case _ =>
  }

  lemma EqualScalars(a: Value, b: Value)
    ensures Equal(Bool(true), Num(1.0)) && Equal(Bool(false), Num(0.0))
    ensures (a.Str? || a.Num?) && (a.Bool? <==> b.Bool?) ==> (Equal(a, b) <==> a == b)
    ensures Equal(a, b) && !a.List? && !a.Dict? && !a.Bool? && !b.Bool? ==> a == b
    ensures Equal(a, b) ==> (a.List? <==> b.List?) && (a.Dict? <==> b.Dict?)
    ensures a.List? && b.List? ==>
              (Equal(a, b) <==> |a.items| == |b.items| && forall i | 0 <= i < |a.items| :: Equal(a.items[i], b.items[i]))
    ensures a.Dict? && b.Dict? ==>
              (Equal(a, b) <==> a.fields.Keys == b.fields.Keys
                                && forall k | k in a.fields :: Equal(a.fields[k], b.fields[k]))
  {
  }

  // ---------------------------------------------------------------------------------------
  // Operators
  // ---------------------------------------------------------------------------------------

  datatype Op =
    | Eq | Ne | Gt | Gte | Lt | Lte | In | NotIn | AnyIn | AnyNotIn
    | Contains | IContains | Matches | Glob | Exists

  function AsSequence(v: Value): seq<Value> { if v.List? then v.items else [v] }

  predicate MemberOf(v: Value, vs: seq<Value>) { exists x | x in vs :: Equal(v, x) }

  predicate Truthy(v: Value) {
    match v
    case Absent => false
    case Bool(b) => b
    case Num(n) => n != 0.0
    case Str(s) => s != ""
    case List(items) => items != []
    case Dict(fields) => fields != map[]
    case _ => true
  }

  predicate Substring(part: string, whole: string) {
    part <= whole || (whole != "" && Substring(part, whole[1..]))
  }

  predicate Operate(rt: Runtime, op: Op, actual: Value, expected: Value) {
    match op
    case Eq => Equal(actual, expected)
    case Ne => !Equal(actual, expected)
    case Gt => actual.Num? && expected.Num? && actual.n > expected.n
    case Gte => actual.Num? && expected.Num? && actual.n >= expected.n
    case Lt => actual.Num? && expected.Num? && actual.n < expected.n
    case Lte => actual.Num? && expected.Num? && actual.n <= expected.n
    case In => MemberOf(actual, AsSequence(expected))
    case NotIn => !MemberOf(actual, AsSequence(expected))
    case AnyIn => exists x | x in AsSequence(actual) :: MemberOf(x, AsSequence(expected))
    case AnyNotIn => exists x | x in AsSequence(actual) :: !MemberOf(x, AsSequence(expected))
    case Contains =>
      if actual.Str? && expected.Str? then Substring(expected.s, actual.s) else MemberOf(expected, AsSequence(actual))
    case IContains => actual.Str? && expected.Str? && Substring(rt.fold(expected.s), rt.fold(actual.s))
    case Matches => actual.Str? && expected.Str? && rt.search(expected.s, actual.s)
    case Glob => actual.Str? && expected.Str? && rt.glob(actual.s, expected.s)
    case Exists => (actual != Absent) == Truthy(expected)
  }

  predicate Compares(op: Op) { op in {Gt, Gte, Lt, Lte} }

  /** Threshold operators look at numbers only, never at booleans; raising the actual value can only help `gt` and `gte`
      and hurt `lt` and `lte`, and on numbers `gte` is the negation of `lt`, `lte` of `gt`. */
  lemma Thresholds(rt: Runtime, op: Op, actual: Value, higher: Value, expected: Value)
    requires Compares(op)
    ensures Operate(rt, op, actual, expected) ==> actual.Num? && expected.Num?
    ensures actual.Num? && higher.Num? && actual.n <= higher.n ==>
              if op == Gt || op == Gte then Operate(rt, op, actual, expected) ==> Operate(rt, op, higher, expected)
              else Operate(rt, op, higher, expected) ==> Operate(rt, op, actual, expected)
    ensures actual.Num? && expected.Num? ==>
              && Operate(rt, Gte, actual, expected) == !Operate(rt, Lt, actual, expected)
              && Operate(rt, Lte, actual, expected) == !Operate(rt, Gt, actual, expected)
              && (Operate(rt, Eq, actual, expected) <==>
                    Operate(rt, Gte, actual, expected) && Operate(rt, Lte, actual, expected))
  {
  }

  lemma ElementOperators(rt: Runtime, v: Value, expected: Value)
    ensures Operate(rt, In, v, expected) == MemberOf(v, AsSequence(expected))
    ensures Operate(rt, NotIn, v, expected) == !MemberOf(v, AsSequence(expected))
  {
    hide MemberOf, AsSequence, Equal, Substring, Truthy;
  }

  lemma AnyInMeans(rt: Runtime, actual: Value, expected: Value)
    ensures Operate(rt, AnyIn, actual, expected)
         == exists x | x in AsSequence(actual) :: MemberOf(x, AsSequence(expected))
    ensures Operate(rt, AnyNotIn, actual, expected)
         == exists x | x in AsSequence(actual) :: !MemberOf(x, AsSequence(expected))
  {
    hide MemberOf, AsSequence, Equal, Substring, Truthy;
  }

  /** `any_not_in` is not the negation of `any_in`: it fails only when every element is listed, `any_in` only when none is. */
  lemma AnyOperators(rt: Runtime, actual: Value, expected: Value)
    ensures !Operate(rt, AnyIn, actual, expected) <==> forall x | x in AsSequence(actual) :: Operate(rt, NotIn, x, expected)
    ensures !Operate(rt, AnyNotIn, actual, expected) <==> forall x | x in AsSequence(actual) :: Operate(rt, In, x, expected)
    ensures Operate(rt, In, actual, expected) != Operate(rt, NotIn, actual, expected)
  {
    hide Operate, MemberOf, AsSequence;
    AnyInMeans(rt, actual, expected);
    forall x ensures Operate(rt, In, x, expected) == MemberOf(x, AsSequence(expected)) == !Operate(rt, NotIn, x, expected) {
      ElementOperators(rt, x, expected);
    }
  }

  lemma OnlyMember(v: Value, only: Value)
    ensures MemberOf(v, [only]) == Equal(v, only)
  {
    assert only in [only];
  }

  /** Both hold for a list of one listed and one other element. */
  lemma MixedList(rt: Runtime, inside: string, outside: string)
    requires inside != outside
    ensures var mixed := List([Str(inside), Str(outside)]);
            Operate(rt, AnyIn, mixed, Str(inside)) && Operate(rt, AnyNotIn, mixed, Str(inside))
  {
    var mixed := List([Str(inside), Str(outside)]);
    assert AsSequence(mixed)[0] == Str(inside) && AsSequence(mixed)[1] == Str(outside);
    assert AsSequence(Str(inside)) == [Str(inside)];
    OnlyMember(Str(inside), Str(inside));
    OnlyMember(Str(outside), Str(inside));
  }

  lemma {:induction false} PartFound(front: string, part: string, back: string)
    ensures Substring(part, front + part + back)
  {
    var whole := front + part + back;
    if front == "" {
      assert whole == part + back;
    } else {
      PartFound(front[1..], part, back);
      assert whole[1..] == front[1..] + part + back;
    }
  }

  lemma {:induction false} FoundPart(part: string, whole: string) returns (front: string, back: string)
    requires Substring(part, whole)
    ensures whole == front + part + back
  {
    if part <= whole {
      front, back := "", whole[|part|..];
    } else {
      front, back := FoundPart(part, whole[1..]);
      front := [whole[0]] + front;
    }
  }

  /** `contains` on text: the part occurs somewhere. */
  lemma {:induction false} SubstringOccurs(part: string, whole: string)
    ensures Substring(part, whole) <==> exists front: string, back: string :: whole == front + part + back
  {
    hide Substring;
    if Substring(part, whole) {
      var front, back := FoundPart(part, whole);
      assert whole == front + part + back;
    }
    forall front: string, back: string | whole == front + part + back ensures Substring(part, whole) {
      PartFound(front, part, back);
    }
  }

  /** `ne` is the negation of `eq`; what `matches`, `glob` and `icontains` ask, they ask of texts only. */
  lemma TextOperators(rt: Runtime, actual: Value, expected: Value)
    ensures Operate(rt, Eq, actual, expected) <==> Equal(actual, expected)
    ensures Operate(rt, Ne, actual, expected) <==> !Operate(rt, Eq, actual, expected)
    ensures Operate(rt, Matches, actual, expected) <==> actual.Str? && expected.Str? && rt.search(expected.s, actual.s)
    ensures Operate(rt, Glob, actual, expected) <==> actual.Str? && expected.Str? && rt.glob(actual.s, expected.s)
    ensures Operate(rt, IContains, actual, expected)
       <==> actual.Str? && expected.Str?
            && exists front: string, back: string :: rt.fold(actual.s) == front + rt.fold(expected.s) + back
  {
    hide MemberOf, AsSequence, Equal, Truthy, Substring;
    if actual.Str? && expected.Str? {
      SubstringOccurs(rt.fold(expected.s), rt.fold(actual.s));
    }
  }

  /** `contains` looks for a part of a text, for an element of a list, and takes any other value for a list of one. */
  lemma Containment(rt: Runtime, actual: Value, expected: Value)
    ensures actual.Str? && expected.Str? ==>
              (Operate(rt, Contains, actual, expected)
               <==> exists front: string, back: string :: actual.s == front + expected.s + back)
    ensures actual.List? ==>
              (Operate(rt, Contains, actual, expected)
               <==> exists i :: 0 <= i < |actual.items| && Equal(expected, actual.items[i]))
    ensures !actual.List? && !(actual.Str? && expected.Str?) ==>
              (Operate(rt, Contains, actual, expected) <==> Equal(expected, actual))
  {
    hide Equal, Truthy, Substring;
    if actual.Str? && expected.Str? {
      SubstringOccurs(expected.s, actual.s);
    } else if actual.List? {
      assert forall x :: x in actual.items <==> exists i :: 0 <= i < |actual.items| && actual.items[i] == x;
    } else {
      OnlyMember(expected, actual);
    }
  }

  /** `in` looks for the value in a list, and takes any other value for a list of one. */
  lemma Listed(rt: Runtime, actual: Value, expected: Value)
    ensures expected.List? ==>
              (Operate(rt, In, actual, expected)
               <==> exists i :: 0 <= i < |expected.items| && Equal(actual, expected.items[i]))
    ensures !expected.List? ==> (Operate(rt, In, actual, expected) <==> Equal(actual, expected))
  {
    ElementOperators(rt, actual, expected);
    hide Equal, Operate;
    if expected.List? {
      assert forall x :: x in expected.items <==> exists i :: 0 <= i < |expected.items| && expected.items[i] == x;
    } else {
      OnlyMember(actual, expected);
    }
  }

  /** `exists: true` holds of what was found, `exists: false` of what was not; None, False, zero and the empty text, list
      and dictionary count as false, and nothing else. */
  lemma Existence(rt: Runtime, actual: Value, expected: Value)
    ensures Operate(rt, Exists, actual, expected)
       <==> if expected == Absent || expected == Bool(false) || expected == Num(0.0) || expected == Str("")
               || expected == List([]) || expected == Dict(map[])
            then actual == Absent else actual != Absent
  {
    hide Equal, Substring, MemberOf;
  }

  /** `apply_operator`: an UNKNOWN resolves towards restriction. */
  predicate ApplyOperator(rt: Runtime, op: Op, actual: Value, expected: Value, effect: Effect) {
    if actual == Unknown then Restrictive(effect) else Operate(rt, op, actual, expected)
  }

  // ---------------------------------------------------------------------------------------
  // Bundles
  // ---------------------------------------------------------------------------------------

  /** A dotted path, split at the dots. */
  type Path = seq<string>

  datatype Condition = Condition(path: Path, op: Op, value: Value)

  datatype Match = Match(tool: Option<string>, all: seq<Condition>, any: seq<Condition>)

  datatype TimeoutAction = Deny | AllowOnTimeout

  datatype HitlOptions = HitlOptions(timeoutSeconds: nat, onTimeout: TimeoutAction)

  const DEFAULT_HITL: HitlOptions := HitlOptions(900, Deny)

  datatype Rule = Rule(id: string, severity: string, when: Match, effect: Effect, hitl: Option<HitlOptions>, enabled: bool)

  datatype Bundle = Bundle(bundleId: string, version: nat, shadow: bool, defaultEffect: Effect, rules: seq<Rule>)

  /** `_unique_rule_ids` */
  predicate UniqueIds(rules: seq<Rule>) {
    forall i, j | 0 <= i < j < |rules| :: rules[i].id != rules[j].id
  }

  function HitlOf(r: Rule): HitlOptions { if r.hitl.Some? then r.hitl.value else DEFAULT_HITL }
}
