/** The evaluation engine, and the soundness of its handling of UNKNOWN. */
module Engine {
  import opened Order
  import opened Policy
  import opened Facts

  // ---------------------------------------------------------------------------------------
  // Path lookup
  // ---------------------------------------------------------------------------------------

  /** One component of a path; None where Python finds nothing. */
  function Child(rt: Runtime, v: Value, part: string): Option<Value> {
    match v
    case Dict(fields) => if part in fields then Some(fields[part]) else None
    case List(_) => rt.listAttr(part)
    case _ => rt.scalarAttr(v, part)
  }

  function Resolve(rt: Runtime, path: Path, v: Value): Value {
    if path == [] then v
    else if v == Unknown then Unknown
    else
      match Child(rt, v, path[0])
      case None => Absent
      case Some(w) => Resolve(rt, path[1..], w)
  }

  /** `_resolve_path` */
  method ResolvePath(rt: Runtime, path: Path, facts: Value) returns (r: Value)
    ensures r == Resolve(rt, path, facts)
  {
    var current := facts;
    for n := 0 to |path|
      invariant Resolve(rt, path, facts) == Resolve(rt, path[n..], current)
    {
      if current == Unknown {
        return Unknown;
      }
      var next := Child(rt, current, path[n]);
      assert path[n..][0] == path[n] && path[n..][1..] == path[n + 1..];
      if next == None {
        return Absent;
      }
      current := next.value;
    }
    return current;
  }

  /** One path down nested dictionaries, and what lies on it. */
  ghost predicate Nested(vs: seq<Value>, path: Path) {
    && |vs| == |path| + 1
    && forall i | 0 <= i < |path| :: vs[i].Dict? && path[i] in vs[i].fields && vs[i + 1] == vs[i].fields[path[i]]
  }

  /** A lookup goes down the dictionaries it meets; it finds UNKNOWN where the way leads through it, and nothing where
      a key is missing. */
  lemma {:induction false} LookupInDictionaries(rt: Runtime, path: Path, vs: seq<Value>, rest: Path)
    requires Nested(vs, path)
    ensures rest == [] ==> Resolve(rt, path + rest, vs[0]) == vs[|path|]
    ensures vs[|path|] == Unknown ==> Resolve(rt, path + rest, vs[0]) == Unknown
    ensures rest != [] && vs[|path|].Dict? && rest[0] !in vs[|path|].fields ==> Resolve(rt, path + rest, vs[0]) == Absent
  {
    if path == [] {
      assert path + rest == rest;
    } else {
      assert (path + rest)[1..] == path[1..] + rest;
      LookupInDictionaries(rt, path[1..], vs[1..], rest);
    }
  }

  /** Anything else is asked for an attribute; a list, for one of its methods. */
  lemma LookupAttribute(rt: Runtime, v: Value, part: string)
    requires v != Unknown && !v.Dict?
    ensures var found := if v.List? then rt.listAttr(part) else rt.scalarAttr(v, part);
            Resolve(rt, [part], v) == if found.Some? then found.value else Absent
  {
    assert [part][1..] == [];
  }

  // ---------------------------------------------------------------------------------------
  // Rules
  // ---------------------------------------------------------------------------------------

  predicate Holds(rt: Runtime, c: Condition, facts: Value, effect: Effect) {
    ApplyOperator(rt, c.op, Resolve(rt, c.path, facts), c.value, effect)
  }

  function UnknownAt(rt: Runtime, c: Condition, facts: Value): seq<Path> {
    if Resolve(rt, c.path, facts) == Unknown then [c.path] else []
  }

  /** Whether all hold, and the paths found UNKNOWN before the answer was known. */
  function AllOf(rt: Runtime, cs: seq<Condition>, facts: Value, effect: Effect): (bool, seq<Path>) {
    if cs == [] then (true, [])
    else if !Holds(rt, cs[0], facts, effect) then (false, UnknownAt(rt, cs[0], facts))
    else
      var (b, u) := AllOf(rt, cs[1..], facts, effect);
      (b, UnknownAt(rt, cs[0], facts) + u)
  }

  function AnyOf(rt: Runtime, cs: seq<Condition>, facts: Value, effect: Effect): (bool, seq<Path>) {
    if cs == [] then (false, [])
    else if Holds(rt, cs[0], facts, effect) then (true, UnknownAt(rt, cs[0], facts))
    else
      var (b, u) := AnyOf(rt, cs[1..], facts, effect);
      (b, UnknownAt(rt, cs[0], facts) + u)
  }

  predicate IsGlob(pattern: string) { exists c | c in pattern :: c == '*' || c == '?' || c == '[' }

  predicate ToolMatches(rt: Runtime, pattern: Option<string>, tool: string) {
    match pattern
    case None => true
    case Some(p) => if IsGlob(p) then rt.glob(tool, p) else p == tool
  }

  /** `_match_applies` */
  function MatchApplies(rt: Runtime, m: Match, facts: Value, tool: string, effect: Effect): (bool, seq<Path>) {
    if !ToolMatches(rt, m.tool, tool) then (false, [])
    else
      var (every, u) := AllOf(rt, m.all, facts, effect);
      if !every then (false, u)
      else if m.any == [] then (true, u)
      else
        var (some_, v) := AnyOf(rt, m.any, facts, effect);
        (some_, u + v)
  }

  predicate Applies(rt: Runtime, r: Rule, facts: Value, tool: string) {
    r.enabled && MatchApplies(rt, r.when, facts, tool, r.effect).0
  }

  function PathsOf(rt: Runtime, r: Rule, facts: Value, tool: string): seq<Path> {
    if r.enabled then MatchApplies(rt, r.when, facts, tool, r.effect).1 else []
  }

  // --- what that means -------------------------------------------------------------------

  /** A wildcard in the pattern makes it a glob; without one it is a name. */
  ghost predicate NamesTool(rt: Runtime, pattern: Option<string>, tool: string) {
    pattern.Some? ==>
      if '*' in pattern.value || '?' in pattern.value || '[' in pattern.value then rt.glob(tool, pattern.value)
      else tool == pattern.value
  }

  /** A condition on an UNKNOWN value holds in the rules that restrict. */
  ghost predicate Satisfied(rt: Runtime, c: Condition, facts: Value, effect: Effect) {
    var actual := Resolve(rt, c.path, facts);
    if actual == Unknown then effect == RequireHitl || effect == Block else Operate(rt, c.op, actual, c.value)
  }

  /** When a rule fires: it is enabled, its pattern fits, all of `all` and, where there is any, one of `any` hold. */
  ghost predicate Fires(rt: Runtime, r: Rule, facts: Value, tool: string) {
    && r.enabled && NamesTool(rt, r.when.tool, tool)
    && (forall i | 0 <= i < |r.when.all| :: Satisfied(rt, r.when.all[i], facts, r.effect))
    && (r.when.any == [] || exists i :: 0 <= i < |r.when.any| && Satisfied(rt, r.when.any[i], facts, r.effect))
  }

  /** The condition at place i is on this path, and UNKNOWN. */
  ghost predicate MetUnknown(rt: Runtime, cs: seq<Condition>, i: int, facts: Value, p: Path) {
    0 <= i < |cs| && cs[i].path == p && Resolve(rt, p, facts) == Unknown
  }

  /** Some condition is UNKNOWN on this path, and all before it came out as `before` says. */
  ghost predicate MeetsAmong(rt: Runtime, cs: seq<Condition>, facts: Value, p: Path, effect: Effect, before: bool) {
    exists i :: MetUnknown(rt, cs, i, facts, p) && forall j | 0 <= j < i :: Satisfied(rt, cs[j], facts, effect) == before
  }

  /** A rule meets an UNKNOWN while its answer is still open: in `all` before any condition failed, in `any` after all
      of `all` held and before any other held. */
  ghost predicate Meets(rt: Runtime, r: Rule, facts: Value, tool: string, p: Path) {
    && r.enabled && NamesTool(rt, r.when.tool, tool)
    && var all, any := r.when.all, r.when.any;
    || MeetsAmong(rt, all, facts, p, r.effect, true)
    || ((forall j | 0 <= j < |all| :: Satisfied(rt, all[j], facts, r.effect))
        && MeetsAmong(rt, any, facts, p, r.effect, false))
  }

  lemma HoldsIff(rt: Runtime, c: Condition, facts: Value, effect: Effect)
    ensures Holds(rt, c, facts, effect) <==> Satisfied(rt, c, facts, effect)
  {
    hide Operate, Resolve;
  }

  lemma MeetsRest(rt: Runtime, cs: seq<Condition>, facts: Value, p: Path, effect: Effect, before: bool)
    requires cs != [] && Satisfied(rt, cs[0], facts, effect) == before && MeetsAmong(rt, cs[1..], facts, p, effect, before)
    ensures MeetsAmong(rt, cs, facts, p, effect, before)
  {
    hide Satisfied, Resolve;
    var i :| MetUnknown(rt, cs[1..], i, facts, p)
             && forall j | 0 <= j < i :: Satisfied(rt, cs[1..][j], facts, effect) == before;
    forall j | 0 <= j < i + 1 ensures Satisfied(rt, cs[j], facts, effect) == before {
      assert j > 0 ==> cs[j] == cs[1..][j - 1];
    }
    assert MetUnknown(rt, cs, i + 1, facts, p);
  }

  lemma MeetsFirst(rt: Runtime, cs: seq<Condition>, facts: Value, p: Path, effect: Effect, before: bool)
    requires MeetsAmong(rt, cs, facts, p, effect, before) && !MetUnknown(rt, cs, 0, facts, p)
    ensures Satisfied(rt, cs[0], facts, effect) == before && MeetsAmong(rt, cs[1..], facts, p, effect, before)
  {
    hide Satisfied, Resolve;
    var i :| MetUnknown(rt, cs, i, facts, p) && forall j | 0 <= j < i :: Satisfied(rt, cs[j], facts, effect) == before;
    forall j | 0 <= j < i - 1 ensures Satisfied(rt, cs[1..][j], facts, effect) == before {
      assert cs[1..][j] == cs[j + 1];
    }
    assert MetUnknown(rt, cs[1..], i - 1, facts, p);
  }

  lemma MeetsLater(rt: Runtime, cs: seq<Condition>, facts: Value, p: Path, effect: Effect, before: bool)
    requires cs != []
    ensures MeetsAmong(rt, cs, facts, p, effect, before)
       <==> || p in UnknownAt(rt, cs[0], facts)
            || (Satisfied(rt, cs[0], facts, effect) == before && MeetsAmong(rt, cs[1..], facts, p, effect, before))
  {
    assert MetUnknown(rt, cs, 0, facts, p) <==> p in UnknownAt(rt, cs[0], facts);
    if MetUnknown(rt, cs, 0, facts, p) {
      assert MeetsAmong(rt, cs, facts, p, effect, before);
    }
    hide Satisfied, MeetsAmong, MetUnknown, UnknownAt;
    if MeetsAmong(rt, cs, facts, p, effect, before) && !MetUnknown(rt, cs, 0, facts, p) {
      MeetsFirst(rt, cs, facts, p, effect, before);
    }
    if Satisfied(rt, cs[0], facts, effect) == before && MeetsAmong(rt, cs[1..], facts, p, effect, before) {
      MeetsRest(rt, cs, facts, p, effect, before);
    }
  }

  lemma {:induction false} AllIff(rt: Runtime, cs: seq<Condition>, facts: Value, effect: Effect, p: Path)
    ensures AllOf(rt, cs, facts, effect).0 <==> forall i | 0 <= i < |cs| :: Satisfied(rt, cs[i], facts, effect)
    ensures p in AllOf(rt, cs, facts, effect).1
       <==> MeetsAmong(rt, cs, facts, p, effect, true)
  {
    hide Holds, Satisfied, Resolve;
    if cs != [] {
      HoldsIff(rt, cs[0], facts, effect);
      AllIff(rt, cs[1..], facts, effect, p);
      MeetsLater(rt, cs, facts, p, effect, true);
      hide MeetsAmong;
    }
  }

  lemma {:induction false} AnyIff(rt: Runtime, cs: seq<Condition>, facts: Value, effect: Effect, p: Path)
    ensures AnyOf(rt, cs, facts, effect).0 <==> exists i :: 0 <= i < |cs| && Satisfied(rt, cs[i], facts, effect)
    ensures p in AnyOf(rt, cs, facts, effect).1
       <==> MeetsAmong(rt, cs, facts, p, effect, false)
  {
    hide Holds, Satisfied, Resolve;
    if cs != [] {
      HoldsIff(rt, cs[0], facts, effect);
      AnyIff(rt, cs[1..], facts, effect, p);
      if i :| 0 <= i < |cs[1..]| && Satisfied(rt, cs[1..][i], facts, effect) {
        assert Satisfied(rt, cs[i + 1], facts, effect);
      }
      MeetsLater(rt, cs, facts, p, effect, false);
      hide MeetsAmong;
    }
  }

  /** The engine tries a rule as that says, and reports the UNKNOWNs it meets. */
  lemma AppliesIff(rt: Runtime, r: Rule, facts: Value, tool: string, p: Path)
    ensures Applies(rt, r, facts, tool) <==> Fires(rt, r, facts, tool)
    ensures p in PathsOf(rt, r, facts, tool) <==> Meets(rt, r, facts, tool, p)
  {
    hide Satisfied, MeetsAmong;
    AllIff(rt, r.when.all, facts, r.effect, p);
    AnyIff(rt, r.when.any, facts, r.effect, p);
    assert r.when.any == [] ==> AnyOf(rt, r.when.any, facts, r.effect) == (false, []);
    hide AllOf, AnyOf;
    assert ToolMatches(rt, r.when.tool, tool) <==> NamesTool(rt, r.when.tool, tool);
    hide ToolMatches, NamesTool;
  }

  /** The rules that fire, in file order. */
  function Firing(rt: Runtime, rules: seq<Rule>, facts: Value, tool: string): seq<Rule> {
    if rules == [] then []
    else (if Applies(rt, rules[0], facts, tool) then [rules[0]] else []) + Firing(rt, rules[1..], facts, tool)
  }

  function Strictest(rules: seq<Rule>): Effect {
    if rules == [] then Allow else Stricter(rules[0].effect, Strictest(rules[1..]))
  }

  function Verdict(firing: seq<Rule>, defaultEffect: Effect): Effect {
    if firing == [] then defaultEffect else Strictest(firing)
  }

  function EffectOf(rt: Runtime, b: Bundle, facts: Value, tool: string): Effect {
    Verdict(Firing(rt, b.rules, facts, tool), b.defaultEffect)
  }

  // ---------------------------------------------------------------------------------------
  // evaluate
  // ---------------------------------------------------------------------------------------

  datatype RuleMatch = RuleMatch(ruleId: string, effect: Effect, severity: string)

  datatype EvaluationResult = EvaluationResult(
    effect: Effect, matchedRules: seq<RuleMatch>, bundleId: string, bundleVersion: nat, unknownPaths: seq<Path>)

  function AsMatch(r: Rule): RuleMatch { RuleMatch(r.id, r.effect, r.severity) }

  function AsMatches(rules: seq<Rule>): (ms: seq<RuleMatch>)
    ensures |ms| == |rules| && forall i | 0 <= i < |rules| :: ms[i] == AsMatch(rules[i])
  {
    if rules == [] then [] else [AsMatch(rules[0])] + AsMatches(rules[1..])
  }

  /** The paths any enabled rule found UNKNOWN. */
  ghost predicate FoundUnknown(rt: Runtime, rules: seq<Rule>, facts: Value, tool: string, p: Path) {
    exists r | r in rules :: p in PathsOf(rt, r, facts, tool)
  }

  /** The matches are the rules that fire, each named with its effect and severity, in file order. */
  ghost predicate Reports(rt: Runtime, rules: seq<Rule>, facts: Value, tool: string, matches: seq<RuleMatch>) {
    exists places: seq<nat> :: ReportsAt(rt, rules, facts, tool, matches, places)
  }

  ghost predicate ReportsAt(rt: Runtime, rules: seq<Rule>, facts: Value, tool: string, matches: seq<RuleMatch>,
                            places: seq<nat>)
  {
    && |places| == |matches|
    && (forall i, j | 0 <= i < j < |places| :: places[i] < places[j])
    && (forall i | 0 <= i < |places| ::
          && places[i] < |rules| && Fires(rt, rules[places[i]], facts, tool)
          && matches[i].ruleId == rules[places[i]].id && matches[i].effect == rules[places[i]].effect
          && matches[i].severity == rules[places[i]].severity)
    && (forall n | 0 <= n < |rules| && Fires(rt, rules[n], facts, tool) :: n in places)
  }

  /** The strictest effect of the rules that fire, and the default where none does. */
  ghost predicate Decides(rt: Runtime, b: Bundle, facts: Value, tool: string, effect: Effect) {
    if exists r :: r in b.rules && Fires(rt, r, facts, tool) then
      && (exists r :: r in b.rules && Fires(rt, r, facts, tool) && r.effect == effect)
      && (forall r | r in b.rules && Fires(rt, r, facts, tool) :: Rank(r.effect) <= Rank(effect))
    else effect == b.defaultEffect
  }

  /** `evaluate`: every enabled rule is tried, the strictest that fires decides, and the default only when none
      does; the matches come in file order, the UNKNOWN paths without repetition. */
  method Evaluate(rt: Runtime, facts: Value, tool: string, b: Bundle) returns (r: EvaluationResult)
    ensures r.matchedRules == AsMatches(Firing(rt, b.rules, facts, tool))
    ensures Reports(rt, b.rules, facts, tool, r.matchedRules)
    ensures r.effect == EffectOf(rt, b, facts, tool)
    ensures Decides(rt, b, facts, tool, r.effect)
    ensures forall i, j | 0 <= i < j < |r.unknownPaths| :: r.unknownPaths[i] != r.unknownPaths[j]
    ensures forall p :: p in r.unknownPaths <==> exists q :: q in b.rules && Meets(rt, q, facts, tool, p)
    ensures r.bundleId == b.bundleId && r.bundleVersion == b.version
  {
    var unknownPaths: seq<Path> := [];
    var matches: seq<RuleMatch> := [];
    ghost var firing: seq<Rule> := [];
    hide Firing, FoundUnknown, MatchApplies, Strictest, MostRestrictive, Reports, Decides, Meets;
    RulesNone(rt, facts, tool);
    for n := 0 to |b.rules|
      invariant firing == Firing(rt, b.rules[..n], facts, tool) && matches == AsMatches(firing)
      invariant forall i, j | 0 <= i < j < |unknownPaths| :: unknownPaths[i] != unknownPaths[j]
      invariant forall p :: p in unknownPaths <==> FoundUnknown(rt, b.rules[..n], facts, tool, p)
    {
      var rule := b.rules[n];
      assert b.rules[..n + 1] == b.rules[..n] + [rule];
      RulesAppend(rt, b.rules[..n], rule, facts, tool);
      if rule.enabled {
        var (applies, paths) := MatchApplies(rt, rule.when, facts, tool, rule.effect);
        unknownPaths := AddNew(unknownPaths, paths);
        if applies {
          firing := firing + [rule];
          matches := matches + [AsMatch(rule)];
        }
      }
    }
    assert b.rules[..|b.rules|] == b.rules;
    StrictestOfMatches(firing);
    var effect := if matches == [] then b.defaultEffect else MostRestrictive(matches);
    r := EvaluationResult(effect, matches, b.bundleId, b.version, unknownPaths);
    FiringReports(rt, b.rules, facts, tool);
    EffectDecides(rt, b, facts, tool);
    FoundIsMet(rt, b.rules, facts, tool);
  }

  lemma FoundIsMet(rt: Runtime, rules: seq<Rule>, facts: Value, tool: string)
    ensures forall p :: FoundUnknown(rt, rules, facts, tool, p) <==> exists r :: r in rules && Meets(rt, r, facts, tool, p)
  {
    hide PathsOf, Meets;
    forall r, p ensures p in PathsOf(rt, r, facts, tool) <==> Meets(rt, r, facts, tool, p) {
      AppliesIff(rt, r, facts, tool, p);
    }
  }

  lemma FiringIff(rt: Runtime, rules: seq<Rule>, facts: Value, tool: string, r: Rule)
    ensures r in Firing(rt, rules, facts, tool) <==> r in rules && Fires(rt, r, facts, tool)
  {
    FiringMember(rt, rules, facts, tool, r);
    AppliesIff(rt, r, facts, tool, []);
    hide Applies, Fires, Firing;
  }

  /** What `EffectOf` computes. */
  lemma EffectDecides(rt: Runtime, b: Bundle, facts: Value, tool: string)
    ensures Decides(rt, b, facts, tool, EffectOf(rt, b, facts, tool))
  {
    hide Firing, Fires;
    var firing := Firing(rt, b.rules, facts, tool);
    forall r ensures r in firing <==> r in b.rules && Fires(rt, r, facts, tool) {
      FiringIff(rt, b.rules, facts, tool, r);
    }
    StrictestIsMax(firing);
    if firing != [] {
      assert firing[0] in firing;
    }
  }

  lemma {:induction false} FiringReports(rt: Runtime, rules: seq<Rule>, facts: Value, tool: string)
    ensures Reports(rt, rules, facts, tool, AsMatches(Firing(rt, rules, facts, tool)))
    decreases |rules|
  {
    hide Fires, Firing, Reports;
    var firing := Firing(rt, rules, facts, tool);
    if rules == [] {
      RulesNone(rt, facts, tool);
      assert ReportsAt(rt, rules, facts, tool, AsMatches(firing), []);
      ReportsSome(rt, rules, facts, tool, AsMatches(firing), []);
    } else {
      var front, last := rules[..|rules| - 1], rules[|rules| - 1];
      FiringReports(rt, front, facts, tool);
      assert rules == front + [last];
      RulesAppend(rt, front, last, facts, tool);
      AppliesIff(rt, last, facts, tool, []);
      hide Applies;
      var before := Firing(rt, front, facts, tool);
      OneMoreReport(rt, front, last, facts, tool, before);
      assert before + [] == before && AsMatches(before + [last]) == AsMatches(before) + [AsMatch(last)];
    }
  }

  lemma ReportsSome(rt: Runtime, rules: seq<Rule>, facts: Value, tool: string, matches: seq<RuleMatch>, places: seq<nat>)
    requires ReportsAt(rt, rules, facts, tool, matches, places)
    ensures Reports(rt, rules, facts, tool, matches)
  {
  }

  lemma OneMoreReport(rt: Runtime, front: seq<Rule>, last: Rule, facts: Value, tool: string, firing: seq<Rule>)
    requires Reports(rt, front, facts, tool, AsMatches(firing))
    ensures !Fires(rt, last, facts, tool) ==> Reports(rt, front + [last], facts, tool, AsMatches(firing))
    ensures Fires(rt, last, facts, tool) ==> Reports(rt, front + [last], facts, tool, AsMatches(firing) + [AsMatch(last)])
  {
    var places: seq<nat> :| ReportsAt(rt, front, facts, tool, AsMatches(firing), places);
    hide Fires, ReportsAt, Reports, AsMatches, AsMatch;
    if Fires(rt, last, facts, tool) {
      ReportsLast(rt, front, last, facts, tool, AsMatches(firing), places);
      var more: seq<nat> := places + [|front|];
      ReportsSome(rt, front + [last], facts, tool, AsMatches(firing) + [AsMatch(last)], more);
    } else {
      ReportsSkipped(rt, front, last, facts, tool, AsMatches(firing), places);
      ReportsSome(rt, front + [last], facts, tool, AsMatches(firing), places);
    }
  }

  lemma ReportsSkipped(rt: Runtime, front: seq<Rule>, last: Rule, facts: Value, tool: string, matches: seq<RuleMatch>,
                       places: seq<nat>)
    requires ReportsAt(rt, front, facts, tool, matches, places)
    ensures !Fires(rt, last, facts, tool) ==> ReportsAt(rt, front + [last], facts, tool, matches, places)
  {
    hide Fires;
  }

  lemma ReportsLast(rt: Runtime, front: seq<Rule>, last: Rule, facts: Value, tool: string, matches: seq<RuleMatch>,
                    places: seq<nat>)
    requires ReportsAt(rt, front, facts, tool, matches, places) && Fires(rt, last, facts, tool)
    ensures ReportsAt(rt, front + [last], facts, tool, matches + [AsMatch(last)], places + [|front|])
  {
    hide Fires;
    var rules, more := front + [last], places + [|front|];
    forall n | 0 <= n < |rules| && Fires(rt, rules[n], facts, tool) ensures n in more {
      if n < |front| {
        assert n in places;
      } else {
        assert more[|places|] == n;
      }
    }
  }

  lemma RulesNone(rt: Runtime, facts: Value, tool: string)
    ensures Firing(rt, [], facts, tool) == []
    ensures forall p :: !FoundUnknown(rt, [], facts, tool, p)
  {
  }

  lemma RulesAppend(rt: Runtime, rules: seq<Rule>, rule: Rule, facts: Value, tool: string)
    ensures Firing(rt, rules + [rule], facts, tool)
         == Firing(rt, rules, facts, tool) + if Applies(rt, rule, facts, tool) then [rule] else []
    ensures forall p :: FoundUnknown(rt, rules + [rule], facts, tool, p)
                   <==> FoundUnknown(rt, rules, facts, tool, p) || p in PathsOf(rt, rule, facts, tool)
  {
    hide MatchApplies;
    FiringConcat(rt, rules, [rule], facts, tool);
    assert [rule][1..] == [];
  }

  /** `max` over the matched effects, ALLOW if there are none. */
  function MostRestrictive(matches: seq<RuleMatch>): Effect {
    if matches == [] then Allow else Stricter(matches[0].effect, MostRestrictive(matches[1..]))
  }

  lemma {:induction false} StrictestOfMatches(rules: seq<Rule>)
    ensures MostRestrictive(AsMatches(rules)) == Strictest(rules)
  {
    if rules != [] {
      StrictestOfMatches(rules[1..]);
      assert AsMatches(rules)[1..] == AsMatches(rules[1..]);
    }
  }

  /** Appends each path that is not in the list yet. */
  function AddNew(known: seq<Path>, paths: seq<Path>): (r: seq<Path>)
    requires forall i, j | 0 <= i < j < |known| :: known[i] != known[j]
    ensures forall i, j | 0 <= i < j < |r| :: r[i] != r[j]
    ensures forall p :: p in r <==> p in known || p in paths
    decreases |paths|
  {
    if paths == [] then known
    else
      assert paths == [paths[0]] + paths[1..];
      if paths[0] in known then AddNew(known, paths[1..]) else AddNew(known + [paths[0]], paths[1..])
  }

  lemma {:induction false} FiringConcat(rt: Runtime, a: seq<Rule>, b: seq<Rule>, facts: Value, tool: string)
    ensures Firing(rt, a + b, facts, tool) == Firing(rt, a, facts, tool) + Firing(rt, b, facts, tool)
  {
    hide Applies;
    if a == [] {
      assert a + b == b;
    } else {
      assert (a + b)[1..] == a[1..] + b;
      FiringConcat(rt, a[1..], b, facts, tool);
    }
  }

  lemma {:induction false} FiringMember(rt: Runtime, rules: seq<Rule>, facts: Value, tool: string, r: Rule)
    ensures r in Firing(rt, rules, facts, tool) <==> r in rules && Applies(rt, r, facts, tool)
  {
    if rules != [] {
      assert rules == [rules[0]] + rules[1..];
      FiringMember(rt, rules[1..], facts, tool, r);
    }
  }

  /** The strictest effect bounds every rule's and is the effect of one of them. */
  lemma {:induction false} StrictestIsMax(rules: seq<Rule>)
    ensures forall r | r in rules :: Rank(r.effect) <= Rank(Strictest(rules))
    ensures rules != [] ==> exists r | r in rules :: r.effect == Strictest(rules)
  {
    if rules != [] {
      StrictestIsMax(rules[1..]);
      assert rules == [rules[0]] + rules[1..];
      if |rules| > 1 {
        var r :| r in rules[1..] && r.effect == Strictest(rules[1..]);
        assert r in rules;
      }
      assert rules[0] in rules;
    }
  }

  // ---------------------------------------------------------------------------------------
  // Hiding facts
  // ---------------------------------------------------------------------------------------

  /** `w` is `v` with some of its subtrees replaced by UNKNOWN. */
  ghost predicate Hides(w: Value, v: Value)
    decreases w
  {
    match w
    case Unknown => true
    case List(ws) => v.List? && |v.items| == |ws| && forall i | 0 <= i < |ws| :: Hides(ws[i], v.items[i])
    case Dict(fs) => v.Dict? && v.fields.Keys == fs.Keys && forall k | k in fs :: Hides(fs[k], v.fields[k])
    case _ => w == v
  }

  lemma {:induction false} HidesReflexive(v: Value)
    ensures Hides(v, v)
  {
    match v
    case List(items) =>
      forall i | 0 <= i < |items| ensures Hides(items[i], items[i]) {
        HidesReflexive(items[i]);
      }
    case Dict(fields) =>
      forall k | k in fields ensures Hides(fields[k], fields[k]) {
        HidesReflexive(fields[k]);
      }
    case _ =>
  }

  lemma {:induction false} KnownHidesNothing(w: Value, v: Value)
    requires Hides(w, v) && Known(w)
    ensures w == v
  {
    match w
    case List(ws) =>
      forall i | 0 <= i < |ws| ensures ws[i] == v.items[i] {
        KnownHidesNothing(ws[i], v.items[i]);
      }
      assert ws == v.items;
    case Dict(fs) =>
      forall k | k in fs ensures fs[k] == v.fields[k] {
        KnownHidesNothing(fs[k], v.fields[k]);
      }
      assert fs == v.fields;
    case _ =>
  }

  /** Looking up a path commutes with hiding. */
  lemma {:induction false} ResolveHides(rt: Runtime, path: Path, w: Value, v: Value)
    requires Hides(w, v)
    ensures Hides(Resolve(rt, path, w), Resolve(rt, path, v)) || Resolve(rt, path, w) == Unknown
  {
    if path != [] && w != Unknown {
      var c, d := Child(rt, w, path[0]), Child(rt, v, path[0]);
      if c.Some? {
        if !w.Dict? {
          HidesReflexive(c.value);
        }
        ResolveHides(rt, path[1..], c.value, d.value);
      }
    }
  }

  /** The value the condition looks at, in the weakened facts, is UNKNOWN as a whole or not at all. */
  predicate ClearAt(rt: Runtime, path: Path, facts: Value) {
    Whole(Resolve(rt, path, facts))
  }

  predicate ClearRule(rt: Runtime, r: Rule, facts: Value) {
    (forall c | c in r.when.all :: ClearAt(rt, c.path, facts)) && (forall c | c in r.when.any :: ClearAt(rt, c.path, facts))
  }

  /** No enabled rule looks at a container that has a hidden part. */
  predicate Clear(rt: Runtime, b: Bundle, facts: Value) {
    forall r | r in b.rules && r.enabled :: ClearRule(rt, r, facts)
  }

  lemma ConditionHides(rt: Runtime, c: Condition, w: Value, v: Value, effect: Effect)
    requires Hides(w, v) && ClearAt(rt, c.path, w)
    ensures Restrictive(effect) && Holds(rt, c, v, effect) ==> Holds(rt, c, w, effect)
    ensures !Restrictive(effect) && Holds(rt, c, w, effect) ==> Holds(rt, c, v, effect)
  {
    ResolveHides(rt, c.path, w, v);
    if Resolve(rt, c.path, w) != Unknown {
      KnownHidesNothing(Resolve(rt, c.path, w), Resolve(rt, c.path, v));
    }
  }

  lemma {:induction false} AllOfHides(rt: Runtime, cs: seq<Condition>, w: Value, v: Value, effect: Effect)
    requires Hides(w, v) && forall c | c in cs :: ClearAt(rt, c.path, w)
    ensures Restrictive(effect) && AllOf(rt, cs, v, effect).0 ==> AllOf(rt, cs, w, effect).0
    ensures !Restrictive(effect) && AllOf(rt, cs, w, effect).0 ==> AllOf(rt, cs, v, effect).0
  {
    if cs != [] {
      ConditionHides(rt, cs[0], w, v, effect);
      AllOfHides(rt, cs[1..], w, v, effect);
    }
  }

  lemma {:induction false} AnyOfHides(rt: Runtime, cs: seq<Condition>, w: Value, v: Value, effect: Effect)
    requires Hides(w, v) && forall c | c in cs :: ClearAt(rt, c.path, w)
    ensures Restrictive(effect) && AnyOf(rt, cs, v, effect).0 ==> AnyOf(rt, cs, w, effect).0
    ensures !Restrictive(effect) && AnyOf(rt, cs, w, effect).0 ==> AnyOf(rt, cs, v, effect).0
  {
    if cs != [] {
      ConditionHides(rt, cs[0], w, v, effect);
      AnyOfHides(rt, cs[1..], w, v, effect);
    }
  }

  /** Hiding facts keeps every restrictive rule that fired, and adds no permissive one. */
  lemma RuleHides(rt: Runtime, r: Rule, w: Value, v: Value, tool: string)
    requires Hides(w, v) && (r.enabled ==> ClearRule(rt, r, w))
    ensures Restrictive(r.effect) && Applies(rt, r, v, tool) ==> Applies(rt, r, w, tool)
    ensures !Restrictive(r.effect) && Applies(rt, r, w, tool) ==> Applies(rt, r, v, tool)
  {
    if r.enabled {
      AllOfHides(rt, r.when.all, w, v, r.effect);
      AnyOfHides(rt, r.when.any, w, v, r.effect);
    }
  }

  lemma ClearFiringHides(rt: Runtime, b: Bundle, w: Value, v: Value, tool: string, r: Rule)
    requires Hides(w, v) && Clear(rt, b, w)
    ensures Restrictive(r.effect) && r in Firing(rt, b.rules, v, tool) ==> r in Firing(rt, b.rules, w, tool)
    ensures !Restrictive(r.effect) && r in Firing(rt, b.rules, w, tool) ==> r in Firing(rt, b.rules, v, tool)
  {
    FiringMember(rt, b.rules, v, tool, r);
    FiringMember(rt, b.rules, w, tool, r);
    if r in b.rules {
      RuleHides(rt, r, w, v, tool);
    }
  }

  /** The effect permits execution exactly when no restrictive rule fires and, if none fires at all, the default permits. */
  lemma PermitsIff(firing: seq<Rule>, defaultEffect: Effect)
    ensures Permits(Verdict(firing, defaultEffect))
       <==> (forall r | r in firing :: !Restrictive(r.effect)) && (firing == [] ==> Permits(defaultEffect))
  {
    StrictestIsMax(firing);
  }

  /** An action permitted on what is known is permitted on the whole truth, as long as the rules look at clear values. */
  lemma ClearSound(rt: Runtime, b: Bundle, w: Value, v: Value, tool: string)
    requires Hides(w, v) && Clear(rt, b, w)
    requires Permits(EffectOf(rt, b, w, tool))
    ensures Permits(EffectOf(rt, b, v, tool))
  {
    var fw, fv := Firing(rt, b.rules, w, tool), Firing(rt, b.rules, v, tool);
    PermitsIff(fw, b.defaultEffect);
    PermitsIff(fv, b.defaultEffect);
    forall r | r in fv ensures !Restrictive(r.effect) {
      ClearFiringHides(rt, b, w, v, tool, r);
    }
    if fv == [] && fw != [] {
      assert fw[0] in fw;
      ClearFiringHides(rt, b, w, v, tool, fw[0]);
    }
  }

  lemma ClearLoweredIff(rt: Runtime, b: Bundle, w: Value, v: Value, tool: string)
    requires Hides(w, v) && Clear(rt, b, w)
    ensures var before, after := EffectOf(rt, b, v, tool), EffectOf(rt, b, w, tool);
            Rank(after) < Rank(before)
            <==> || (before == LogAndAllow && after == Allow)
                 || (b.defaultEffect == Block && Firing(rt, b.rules, v, tool) == [] && after == RequireHitl)
  {
    var fw, fv := Firing(rt, b.rules, w, tool), Firing(rt, b.rules, v, tool);
    var before, after := EffectOf(rt, b, v, tool), EffectOf(rt, b, w, tool);
    StrictestIsMax(fv);
    StrictestIsMax(fw);
    if fv != [] && Restrictive(before) {
      var r :| r in fv && r.effect == Strictest(fv);
      ClearFiringHides(rt, b, w, v, tool, r);
    }
    if Permits(after) {
      ClearSound(rt, b, w, v, tool);
    }
    if fv == [] && fw != [] {
      var r :| r in fw && r.effect == Strictest(fw);
      ClearFiringHides(rt, b, w, v, tool, r);
    }
  }

  // ---------------------------------------------------------------------------------------
  // Loaded bundles on built facts
  // ---------------------------------------------------------------------------------------

  lemma {:induction false} ResolveKnown(rt: Runtime, path: Path, v: Value)
    requires Known(v)
    ensures Known(Resolve(rt, path, v))
  {
    if path != [] && Child(rt, v, path[0]).Some? {
      ResolveKnown(rt, path[1..], Child(rt, v, path[0]).value);
    }
  }

  /** What a path that passed validation finds in facts the service built is clear. */
  lemma ValidPathClear(rt: Runtime, w: Value, path: Path)
    requires BuiltFacts(w) && ValidPath(path)
    ensures ClearAt(rt, path, w)
  {
    if path[0] == "derived" {
      assert path == ["derived", path[1]];
      DerivedFact(rt, w, path[1]);
    } else {
      ResolveKnown(rt, path[1..], w.fields[path[0]]);
    }
  }

  lemma DerivedFact(rt: Runtime, w: Value, fact: string)
    requires FactTree(w) && fact in EXTRACTORS
    ensures Resolve(rt, ["derived", fact], w) == w.fields["derived"].fields[fact]
  {
    var d := w.fields["derived"];
    assert ["derived", fact][1..] == [fact] && [fact][1..] == [];
    assert Resolve(rt, [], d.fields[fact]) == d.fields[fact];
    assert Resolve(rt, [fact], d) == d.fields[fact];
  }

  lemma LoadedIsClear(rt: Runtime, b: Bundle, w: Value)
    requires BuiltFacts(w) && Loaded(b)
    ensures Clear(rt, b, w)
  {
    hide BuiltFacts, ValidPath, ClearAt;
    forall r | r in b.rules && r.enabled ensures ClearRule(rt, r, w) {
      forall c | c in r.when.all || c in r.when.any ensures ClearAt(rt, c.path, w) {
        ValidPathClear(rt, w, c.path);
      }
    }
  }

  /** Hiding facts keeps every restrictive rule that fired, and makes no permissive rule fire. */
  lemma FiringHides(rt: Runtime, b: Bundle, w: Value, v: Value, tool: string, r: Rule)
    requires BuiltFacts(w) && Loaded(b) && Hides(w, v)
    ensures Restrictive(r.effect) && r in Firing(rt, b.rules, v, tool) ==> r in Firing(rt, b.rules, w, tool)
    ensures !Restrictive(r.effect) && r in Firing(rt, b.rules, w, tool) ==> r in Firing(rt, b.rules, v, tool)
  {
    hide BuiltFacts, Loaded, Clear;
    LoadedIsClear(rt, b, w);
    ClearFiringHides(rt, b, w, v, tool, r);
  }

  /** Soundness: whatever a loaded bundle permits on the facts the service built, it permits on the whole truth. */
  lemma UnknownSound(rt: Runtime, b: Bundle, w: Value, v: Value, tool: string)
    requires BuiltFacts(w) && Loaded(b) && Hides(w, v)
    requires Permits(EffectOf(rt, b, w, tool))
    ensures Permits(EffectOf(rt, b, v, tool))
  {
    hide BuiltFacts, Loaded, Clear;
    LoadedIsClear(rt, b, w);
    ClearSound(rt, b, w, v, tool);
  }

  /** Exactly how hiding facts can make the effect less strict: a noteworthy permission can turn into a plain one,
      and where the default is to block, a call no rule fires for can come to need review. Nothing else. */
  lemma EffectLoweredIff(rt: Runtime, b: Bundle, w: Value, v: Value, tool: string)
    requires BuiltFacts(w) && Loaded(b) && Hides(w, v)
    ensures var before, after := EffectOf(rt, b, v, tool), EffectOf(rt, b, w, tool);
            Rank(after) < Rank(before)
            <==> || (before == LogAndAllow && after == Allow)
                 || (b.defaultEffect == Block && Firing(rt, b.rules, v, tool) == [] && after == RequireHitl)
  {
    hide BuiltFacts, Loaded, Clear;
    LoadedIsClear(rt, b, w);
    ClearLoweredIff(rt, b, w, v, tool);
  }

  // ---------------------------------------------------------------------------------------
  // The condition is the weakest one
  // ---------------------------------------------------------------------------------------

  /** One original the facts may stand for: every UNKNOWN read as None. */
  function Fill(w: Value): Value {
    match w
    case Unknown => Absent
    case List(ws) => List(seq(|ws|, i requires 0 <= i < |ws| => Fill(ws[i])))
    case Dict(fs) => Dict(map k | k in fs :: Fill(fs[k]))
    case _ => w
  }

  lemma {:induction false} FillHidden(w: Value)
    ensures Hides(w, Fill(w))
    ensures Known(w) ==> Fill(w) == w
    ensures !Known(w) ==> !Equal(w, Fill(w))
  {
    match w
    case List(ws) =>
      forall i | 0 <= i < |ws|
        ensures Hides(ws[i], Fill(ws[i]))
        ensures Known(ws[i]) ==> Fill(ws[i]) == ws[i]
        ensures !Known(ws[i]) ==> !Equal(ws[i], Fill(ws[i]))
      {
        FillHidden(ws[i]);
      }
      if !Known(w) {
        var x :| x in ws && !Known(x);
        var i :| 0 <= i < |ws| && ws[i] == x;
        assert !Equal(ws[i], Fill(w).items[i]);
      }
    case Dict(fs) =>
      forall k | k in fs
        ensures Hides(fs[k], Fill(fs[k]))
        ensures Known(fs[k]) ==> Fill(fs[k]) == fs[k]
        ensures !Known(fs[k]) ==> !Equal(fs[k], Fill(fs[k]))
      {
        FillHidden(fs[k]);
      }
      if !Known(w) {
        var k :| k in fs && !Known(fs[k]);
        assert !Equal(fs[k], Fill(w).fields[k]);
      }
    case _ =>
  }

  lemma {:induction false} ResolveFill(rt: Runtime, path: Path, w: Value)
    requires Resolve(rt, path, w) != Unknown && !Known(Resolve(rt, path, w))
    ensures Resolve(rt, path, Fill(w)) == Fill(Resolve(rt, path, w))
  {
    if path != [] {
      var c := Child(rt, w, path[0]);
      if !w.Dict? {
        ResolveKnown(rt, path[1..], c.value);
      }
      ResolveFill(rt, path[1..], c.value);
    }
  }

  /** Every enabled rule of the bundle looks at this path only. */
  ghost predicate LooksOnlyAt(b: Bundle, path: Path) {
    forall r, c | r in b.rules && (c in r.when.all || c in r.when.any) :: c.path == path
  }

  ghost predicate SoundFor(rt: Runtime, b: Bundle, w: Value) {
    forall v, tool | Hides(w, v) && Permits(EffectOf(rt, b, w, tool)) :: Permits(EffectOf(rt, b, v, tool))
  }

  /** A bundle with one rule, on one value of a path. */
  function OneRule(path: Path, v: Value, effect: Effect, defaultEffect: Effect): Bundle {
    Bundle("default", 1, false, defaultEffect,
           [Rule("one-value", "high", Match(None, [Condition(path, Eq, v)], []), effect, None, true)])
  }

  lemma OneRuleEffect(rt: Runtime, path: Path, x: Value, effect: Effect, defaultEffect: Effect, facts: Value, tool: string)
    ensures var found := Resolve(rt, path, facts);
            EffectOf(rt, OneRule(path, x, effect, defaultEffect), facts, tool)
            == if (if found == Unknown then Restrictive(effect) else Equal(found, x)) then effect else defaultEffect
  {
    var b := OneRule(path, x, effect, defaultEffect);
    var r := b.rules[0];
    assert r.when.all[1..] == [] && b.rules[1..] == [] && [r][1..] == [];
    assert AllOf(rt, r.when.all, facts, effect).0 == Holds(rt, r.when.all[0], facts, effect);
    assert Firing(rt, b.rules, facts, tool) == if Applies(rt, r, facts, tool) then [r] else [];
    assert Strictest([r]) == effect;
  }

  /** The same tree, with the record count known to be this. */
  function WithCount(w: Value, n: real): Value
    requires FactTree(w)
  {
    Dict(w.fields["derived" := Dict(w.fields["derived"].fields["record_count" := Num(n)])])
  }

  lemma CountRevealed(w: Value, n: real)
    requires BuiltFacts(w) && w.fields["derived"].fields["record_count"] == Unknown
    ensures BuiltFacts(WithCount(w, n)) && Hides(w, WithCount(w, n))
    ensures WithCount(w, n).fields["derived"].fields["record_count"] == Num(n)
  {
    var v := WithCount(w, n);
    forall k | k in w.fields ensures Hides(w.fields[k], v.fields[k]) {
      if k == "derived" {
        forall x | x in w.fields[k].fields ensures Hides(w.fields[k].fields[x], v.fields[k].fields[x]) {
          HidesReflexive(w.fields[k].fields[x]);
        }
      } else {
        HidesReflexive(w.fields[k]);
      }
    }
  }

  const COUNT_PATH: Path := ["derived", "record_count"]

  /** Both ways of losing strictness do occur, on a deletion whose size the extractors cannot tell: that it concerns
      five records would be noted, but is not; or would be blocked by default, and is only held for review. */
  lemma LoweringOccurs(rt: Runtime, tenant: string, e: Envelope)
    requires RecordCount(FromMembers(rt, e.arguments.members)) == Unknown
    ensures var w := BuildFacts(rt, tenant, e);
            var v := WithCount(w, 5.0);
            var noteworthy := OneRule(COUNT_PATH, Num(5.0), LogAndAllow, Allow);
            var reviewed := OneRule(COUNT_PATH, Num(6.0), RequireHitl, Block);
            && BuiltFacts(w) && BuiltFacts(v) && Hides(w, v) && Loaded(noteworthy) && Loaded(reviewed)
            && EffectOf(rt, noteworthy, v, e.tool) == LogAndAllow && EffectOf(rt, noteworthy, w, e.tool) == Allow
            && EffectOf(rt, reviewed, v, e.tool) == Block && EffectOf(rt, reviewed, w, e.tool) == RequireHitl
  {
    CountBuilt(rt, tenant, e);
    hide BuildFacts, EffectOf, OneRule, WithCount, BuiltFacts, FactTree, Hides, Loaded, RecordCount;
    LoweringOn(rt, BuildFacts(rt, tenant, e), e.tool);
  }

  lemma CountBuilt(rt: Runtime, tenant: string, e: Envelope)
    ensures var w := BuildFacts(rt, tenant, e);
            FactTree(w)
            && w.fields["derived"].fields["record_count"] == RecordCount(FromMembers(rt, e.arguments.members))
  {
    hide FromMembers, FromJson, RecordCount, RecipientDomains, RecipientCount, PathFact;
  }

  lemma LoweringOn(rt: Runtime, w: Value, tool: string)
    requires BuiltFacts(w) && FactTree(w) && w.fields["derived"].fields["record_count"] == Unknown
    ensures var v := WithCount(w, 5.0);
            var noteworthy := OneRule(COUNT_PATH, Num(5.0), LogAndAllow, Allow);
            var reviewed := OneRule(COUNT_PATH, Num(6.0), RequireHitl, Block);
            && BuiltFacts(v) && Hides(w, v) && Loaded(noteworthy) && Loaded(reviewed)
            && EffectOf(rt, noteworthy, v, tool) == LogAndAllow && EffectOf(rt, noteworthy, w, tool) == Allow
            && EffectOf(rt, reviewed, v, tool) == Block && EffectOf(rt, reviewed, w, tool) == RequireHitl
  {
    hide EffectOf, OneRule, WithCount, BuiltFacts, Hides, Loaded, Resolve, FactTree;
    var v := WithCount(w, 5.0);
    CountRevealed(w, 5.0);
    CountFound(rt, w);
    CountFound(rt, v);
    OneRuleLoaded(COUNT_PATH, Num(5.0), LogAndAllow, Allow);
    OneRuleLoaded(COUNT_PATH, Num(6.0), RequireHitl, Block);
    OneRuleEffect(rt, COUNT_PATH, Num(5.0), LogAndAllow, Allow, v, tool);
    OneRuleEffect(rt, COUNT_PATH, Num(5.0), LogAndAllow, Allow, w, tool);
    OneRuleEffect(rt, COUNT_PATH, Num(6.0), RequireHitl, Block, v, tool);
    OneRuleEffect(rt, COUNT_PATH, Num(6.0), RequireHitl, Block, w, tool);
  }

  lemma CountFound(rt: Runtime, w: Value)
    requires BuiltFacts(w)
    ensures FactTree(w) && Resolve(rt, COUNT_PATH, w) == w.fields["derived"].fields["record_count"]
  {
    DerivedFact(rt, w, "record_count");
  }

  lemma OneRuleLoaded(path: Path, x: Value, effect: Effect, defaultEffect: Effect)
    requires ValidPath(path)
    ensures Loaded(OneRule(path, x, effect, defaultEffect))
  {
  }

  lemma ClearIsEnough(rt: Runtime, path: Path, w: Value, b: Bundle)
    requires ClearAt(rt, path, w) && LooksOnlyAt(b, path)
    ensures SoundFor(rt, b, w)
  {
    hide Resolve, EffectOf, Permits, Hides, ClearAt;
    assert Clear(rt, b, w);
    forall v, tool | Hides(w, v) && Permits(EffectOf(rt, b, w, tool)) ensures Permits(EffectOf(rt, b, v, tool)) {
      ClearSound(rt, b, w, v, tool);
    }
  }

  /** Otherwise a rule that blocks one possible original fails to. */
  lemma UnclearIsUnsound(rt: Runtime, path: Path, w: Value)
    requires !ClearAt(rt, path, w)
    ensures var b := OneRule(path, Fill(Resolve(rt, path, w)), Block, Allow);
            LooksOnlyAt(b, path) && !SoundFor(rt, b, w)
  {
    hide EffectOf, Hides;
    var x := Resolve(rt, path, w);
    var b := OneRule(path, Fill(x), Block, Allow);
    ResolveFill(rt, path, w);
    FillHidden(w);
    FillHidden(x);
    EqualReflexive(Fill(x));
    OneRuleEffect(rt, path, Fill(x), Block, Allow, w, "");
    OneRuleEffect(rt, path, Fill(x), Block, Allow, Fill(w), "");
    FilledNotUnknown(x);
    assert Hides(w, Fill(w)) && Permits(EffectOf(rt, b, w, "")) && !Permits(EffectOf(rt, b, Fill(w), ""));
  }

  /** Hiding is sound for every bundle that looks at a path exactly when the value found there, in the weakened
      facts, is UNKNOWN as a whole or fully known. A caller can check that before evaluating. */
  lemma ClearIsExact(rt: Runtime, path: Path, w: Value)
    ensures ClearAt(rt, path, w) <==> forall b | LooksOnlyAt(b, path) :: SoundFor(rt, b, w)
  {
    hide ClearAt, LooksOnlyAt, SoundFor;
    if ClearAt(rt, path, w) {
      forall b | LooksOnlyAt(b, path) ensures SoundFor(rt, b, w) {
        ClearIsEnough(rt, path, w, b);
      }
    } else {
      UnclearIsUnsound(rt, path, w);
    }
  }

  /** The extractors' contract is what soundness rests on: on a fact tree, hiding is sound for every bundle the loader
      accepts exactly when each derived fact is UNKNOWN as a whole or not at all. */
  lemma ExtractorContractExact(rt: Runtime, w: Value)
    requires FactTree(w)
    ensures BuiltFacts(w) <==> forall b | Loaded(b) :: SoundFor(rt, b, w)
  {
    hide Loaded, SoundFor, Resolve;
    if BuiltFacts(w) {
      forall b | Loaded(b) ensures SoundFor(rt, b, w) {
        LoadedSound(rt, b, w);
      }
    } else {
      var fact :| fact in EXTRACTORS && !Whole(w.fields["derived"].fields[fact]);
      DerivedFact(rt, w, fact);
      var path: Path := ["derived", fact];
      UnclearIsUnsound(rt, path, w);
      OneRuleLoaded(path, Fill(Resolve(rt, path, w)), Block, Allow);
    }
  }

  lemma LoadedSound(rt: Runtime, b: Bundle, w: Value)
    requires BuiltFacts(w) && Loaded(b)
    ensures SoundFor(rt, b, w)
  {
    hide BuiltFacts, Loaded, EffectOf, Permits, Hides;
    forall v, tool | Hides(w, v) && Permits(EffectOf(rt, b, w, tool)) ensures Permits(EffectOf(rt, b, v, tool)) {
      UnknownSound(rt, b, w, v, tool);
    }
  }

  lemma FilledNotUnknown(x: Value)
    ensures Fill(x) != Unknown
  {
  }

  // ---------------------------------------------------------------------------------------
  // Bundle resolution
  // ---------------------------------------------------------------------------------------

  lemma {:induction false} FiringCounts(rt: Runtime, rules: seq<Rule>, facts: Value, tool: string, r: Rule)
    ensures multiset(Firing(rt, rules, facts, tool))[r]
         == if Applies(rt, r, facts, tool) then multiset(rules)[r] else 0
  {
    if rules != [] {
      assert rules == [rules[0]] + rules[1..];
      FiringCounts(rt, rules[1..], facts, tool, r);
    }
  }

  /** Reordering the rules changes neither the effect, nor which rules matched how often, nor the UNKNOWN paths. */
  lemma OrderIrrelevant(rt: Runtime, b: Bundle, c: Bundle, facts: Value, tool: string)
    requires multiset(b.rules) == multiset(c.rules) && b.defaultEffect == c.defaultEffect
    ensures EffectOf(rt, b, facts, tool) == EffectOf(rt, c, facts, tool)
    ensures multiset(Firing(rt, b.rules, facts, tool)) == multiset(Firing(rt, c.rules, facts, tool))
    ensures forall p :: FoundUnknown(rt, b.rules, facts, tool, p) <==> FoundUnknown(rt, c.rules, facts, tool, p)
  {
    var fb, fc := Firing(rt, b.rules, facts, tool), Firing(rt, c.rules, facts, tool);
    forall r ensures multiset(fb)[r] == multiset(fc)[r] {
      FiringCounts(rt, b.rules, facts, tool, r);
      FiringCounts(rt, c.rules, facts, tool, r);
    }
    assert multiset(fb) == multiset(fc);
    SameMembersSameVerdict(fb, fc, b.defaultEffect);
    forall r ensures r in b.rules <==> r in c.rules {
      assert r in b.rules <==> r in multiset(b.rules);
      assert r in c.rules <==> r in multiset(c.rules);
    }
  }

  lemma SameMembersSameVerdict(a: seq<Rule>, b: seq<Rule>, defaultEffect: Effect)
    requires multiset(a) == multiset(b)
    ensures Verdict(a, defaultEffect) == Verdict(b, defaultEffect)
  {
    StrictestIsMax(a);
    StrictestIsMax(b);
    assert |a| == |multiset(a)| == |multiset(b)| == |b|;
    if a != [] {
      var r :| r in a && r.effect == Strictest(a);
      var s :| s in b && s.effect == Strictest(b);
      assert r in multiset(a) && s in multiset(b);
      assert r in b && s in a;
    }
  }

  /** Adding a rule, anywhere, lowers the effect exactly when nothing fired, the rule fires and is laxer than the default. */
  lemma AddedRuleLowersIff(rt: Runtime, b: Bundle, r: Rule, n: nat, facts: Value, tool: string)
    requires n <= |b.rules|
    ensures var more := b.(rules := b.rules[..n] + [r] + b.rules[n..]);
            Rank(EffectOf(rt, more, facts, tool)) < Rank(EffectOf(rt, b, facts, tool))
            <==> Firing(rt, b.rules, facts, tool) == [] && Applies(rt, r, facts, tool) && Rank(r.effect) < Rank(b.defaultEffect)
  {
    var front, back := b.rules[..n], b.rules[n..];
    assert b.rules == front + back;
    FiringConcat(rt, front, back, facts, tool);
    FiringConcat(rt, front + [r], back, facts, tool);
    FiringConcat(rt, front, [r], facts, tool);
    var x, y := Firing(rt, front, facts, tool), Firing(rt, back, facts, tool);
    var mid: seq<Rule> := if Applies(rt, r, facts, tool) then [r] else [];
    assert Firing(rt, [r], facts, tool) == mid;
    StrictestIsMax(x + y);
    StrictestIsMax(x + mid + y);
    assert forall q :: q in x + y ==> q in x + mid + y;
    if x + y == [] {
      assert x + mid + y == mid;
    }
  }

  // ---------------------------------------------------------------------------------------
  // winning_rule
  // ---------------------------------------------------------------------------------------

  function FirstWithId(rules: seq<Rule>, id: string): Option<Rule> {
    if rules == [] then None else if rules[0].id == id then Some(rules[0]) else FirstWithId(rules[1..], id)
  }

  /** `winning_rule` */
  function WinningRule(matches: seq<RuleMatch>, effect: Effect, b: Bundle): Option<Rule> {
    if matches == [] then None
    else if matches[0].effect == effect then FirstWithId(b.rules, matches[0].ruleId)
    else WinningRule(matches[1..], effect, b)
  }

  lemma {:induction false} UniqueIdFound(rules: seq<Rule>, r: Rule)
    requires UniqueIds(rules) && r in rules
    ensures FirstWithId(rules, r.id) == Some(r)
  {
    assert rules == [rules[0]] + rules[1..];
    if rules[0] != r {
      assert r in rules[1..];
      var i :| 0 <= i < |rules[1..]| && rules[1..][i] == r;
      assert rules[i + 1] == r;
      forall i, j | 0 <= i < j < |rules[1..]| ensures rules[1..][i].id != rules[1..][j].id {
        assert rules[1..][i] == rules[i + 1] && rules[1..][j] == rules[j + 1];
      }
      UniqueIdFound(rules[1..], r);
    }
  }

  /** The rule at this place fires with this effect, and none before it does. */
  ghost predicate FirstFiring(rt: Runtime, rules: seq<Rule>, facts: Value, tool: string, effect: Effect, n: int) {
    && 0 <= n < |rules| && Fires(rt, rules[n], facts, tool) && rules[n].effect == effect
    && NoneFiring(rt, rules[..n], facts, tool, effect)
  }

  ghost predicate NoneFiring(rt: Runtime, rules: seq<Rule>, facts: Value, tool: string, effect: Effect) {
    forall r | r in rules && Fires(rt, r, facts, tool) :: r.effect != effect
  }

  lemma {:induction false} WinnerIsFirst(rt: Runtime, rules: seq<Rule>, facts: Value, tool: string, effect: Effect, b: Bundle)
    returns (n: int)
    ensures var w := WinningRule(AsMatches(Firing(rt, rules, facts, tool)), effect, b);
            if n < 0 then w == None && NoneFiring(rt, rules, facts, tool, effect)
            else FirstFiring(rt, rules, facts, tool, effect, n) && w == FirstWithId(b.rules, rules[n].id)
  {
    if rules == [] {
      return -1;
    }
    AppliesIff(rt, rules[0], facts, tool, []);
    hide Applies, Fires, FirstWithId, FirstFiring, NoneFiring;
    var rest := Firing(rt, rules[1..], facts, tool);
    assert AsMatches([rules[0]] + rest)[1..] == AsMatches(rest);
    if Fires(rt, rules[0], facts, tool) && rules[0].effect == effect {
      FirstHere(rt, rules, facts, tool, effect);
      return 0;
    }
    var firing := Firing(rt, rules, facts, tool);
    assert firing == rest || (firing == [rules[0]] + rest && rules[0].effect != effect);
    hide Firing;
    var m := WinnerIsFirst(rt, rules[1..], facts, tool, effect, b);
    assert WinningRule(AsMatches(firing), effect, b) == WinningRule(AsMatches(rest), effect, b);
    FirstLater(rt, rules, facts, tool, effect, m);
    n := if m < 0 then m else m + 1;
    assert m >= 0 ==> 0 <= m < |rules[1..]| by {
      InRange(rt, rules[1..], facts, tool, effect, m);
    }
  }

  lemma InRange(rt: Runtime, rules: seq<Rule>, facts: Value, tool: string, effect: Effect, n: int)
    ensures FirstFiring(rt, rules, facts, tool, effect, n) ==> 0 <= n < |rules|
  {
  }

  lemma FirstHere(rt: Runtime, rules: seq<Rule>, facts: Value, tool: string, effect: Effect)
    requires rules != [] && Fires(rt, rules[0], facts, tool) && rules[0].effect == effect
    ensures FirstFiring(rt, rules, facts, tool, effect, 0)
  {
    hide Fires;
  }

  lemma FirstLater(rt: Runtime, rules: seq<Rule>, facts: Value, tool: string, effect: Effect, n: int)
    requires rules != [] && !(Fires(rt, rules[0], facts, tool) && rules[0].effect == effect)
    ensures NoneFiring(rt, rules[1..], facts, tool, effect) ==> NoneFiring(rt, rules, facts, tool, effect)
    ensures n >= 0 && FirstFiring(rt, rules[1..], facts, tool, effect, n) ==>
              FirstFiring(rt, rules, facts, tool, effect, n + 1) && rules[n + 1] == rules[1..][n]
  {
    hide Fires;
    assert rules == [rules[0]] + rules[1..];
    if 0 <= n < |rules| - 1 {
      assert rules[..n + 1] == [rules[0]] + rules[1..][..n];
    }
  }

  /** With unique ids the winning rule is the first in the file that fires with the result's effect; there is none
      exactly when nothing fires. */
  lemma WinningRuleExact(rt: Runtime, b: Bundle, facts: Value, tool: string)
    requires UniqueIds(b.rules)
    ensures var effect := EffectOf(rt, b, facts, tool);
            var w := WinningRule(AsMatches(Firing(rt, b.rules, facts, tool)), effect, b);
            && (w == None <==> forall r | r in b.rules :: !Fires(rt, r, facts, tool))
            && (w.Some? ==> exists n :: FirstFiring(rt, b.rules, facts, tool, effect, n) && w.value == b.rules[n])
  {
    hide Fires, Firing, WinningRule, FirstWithId;
    var effect := EffectOf(rt, b, facts, tool);
    var n := WinnerIsFirst(rt, b.rules, facts, tool, effect, b);
    EffectDecides(rt, b, facts, tool);
    if n >= 0 {
      UniqueIdFound(b.rules, b.rules[n]);
    }
  }
}
