/** The fact tree a policy is evaluated on: the request, and what the extractors make of its arguments. */
module Facts {
  import opened Order
  import opened Policy
  import J = Json

  // ---------------------------------------------------------------------------------------
  // The request
  // ---------------------------------------------------------------------------------------

  /** What of an action envelope reaches the facts. The tenant comes from the API key; no principal is the empty one. */
  datatype Envelope =
    Envelope(tool: string, agentId: string, arguments: J.Document, context: J.Document, principal: J.Document)

  /** A parsed JSON value as Python holds it. */
  function FromJson(rt: Runtime, v: J.Json): (r: Value)
    ensures Known(r)
  {
    match v
    case Null => Absent
    case Bool(b) => Policy.Bool(b)
    case Num(token) => Policy.Num(rt.number(token))
    case Str(s) => Policy.Str(s)
    case Arr(items) => List(FromItems(rt, items))
    case Obj(members) => Dict(FromMembers(rt, members))
  }

  function FromItems(rt: Runtime, items: seq<J.Json>): (r: seq<Value>)
    ensures forall x | x in r :: Known(x)
  {
    if items == [] then [] else [FromJson(rt, items[0])] + FromItems(rt, items[1..])
  }

  function FromMembers(rt: Runtime, members: seq<J.Member>): (r: map<string, Value>)
    ensures forall k | k in r :: Known(r[k])
  {
    if members == [] then map[] else FromMembers(rt, members[1..])[members[0].key := FromJson(rt, members[0].value)]
  }

  type Args = map<string, Value>

  // ---------------------------------------------------------------------------------------
  // The extractors
  // ---------------------------------------------------------------------------------------

  const COUNT_KEYS := ["count", "record_count", "limit", "num_records", "n"]
  const ID_LIST_KEYS := ["ids", "record_ids", "keys", "rows", "items", "documents"]
  const RECIPIENT_KEYS := ["to", "recipients", "cc", "bcc", "email", "address"]
  const PATH_KEYS := ["path", "file", "filename", "filepath", "key", "uri", "url"]

  /** UNKNOWN as a whole, or nowhere. */
  predicate Whole(v: Value) { v == Unknown || Known(v) }

  /** The first explicit count: a whole number, and not a boolean. */
  function FirstCount(args: Args, keys: seq<string>): Option<real> {
    if keys == [] then None
    else if keys[0] in args && args[keys[0]].Num? && args[keys[0]].n.Floor as real == args[keys[0]].n then
      Some(args[keys[0]].n)
    else FirstCount(args, keys[1..])
  }

  function FirstLength(args: Args, keys: seq<string>): Option<real> {
    if keys == [] then None
    else if keys[0] in args && args[keys[0]].List? then Some(|args[keys[0]].items| as real)
    else FirstLength(args, keys[1..])
  }

  /** `extract_record_count`: the cardinality of a filter is not known here. */
  function RecordCount(args: Args): (r: Value)
    ensures Whole(r)
  {
    match FirstCount(args, COUNT_KEYS)
    case Some(n) => Num(n)
    case None =>
      match FirstLength(args, ID_LIST_KEYS)
      case Some(n) => Num(n)
      case None => Unknown
  }

  function Texts(vs: seq<Value>): seq<string> {
    if vs == [] then [] else (if vs[0].Str? then [vs[0].s] else []) + Texts(vs[1..])
  }

  /** `_iter_recipient_strings` */
  function Recipients(args: Args, keys: seq<string>): seq<string> {
    if keys == [] then []
    else (if keys[0] in args then Texts(AsSequence(args[keys[0]])) else []) + Recipients(args, keys[1..])
  }

  function Domains(rt: Runtime, raws: seq<string>): seq<string> {
    if raws == [] then [] else Folded(rt, rt.mailDomains(raws[0])) + Domains(rt, raws[1..])
  }

  function Folded(rt: Runtime, texts: seq<string>): seq<string> {
    if texts == [] then [] else [rt.fold(texts[0])] + Folded(rt, texts[1..])
  }

  /** The first occurrence of each, in order. */
  function Distinct(texts: seq<string>, seen: seq<string>): seq<string> {
    if texts == [] then []
    else if texts[0] in seen then Distinct(texts[1..], seen)
    else [texts[0]] + Distinct(texts[1..], seen + [texts[0]])
  }

  function AsTexts(texts: seq<string>): (vs: seq<Value>)
    ensures forall v | v in vs :: v.Str?
  {
    if texts == [] then [] else [Str(texts[0])] + AsTexts(texts[1..])
  }

  /** `extract_recipient_domains`: recipients that do not parse are not the same as none. */
  function RecipientDomains(rt: Runtime, args: Args): (r: Value)
    ensures Whole(r)
  {
    var raws := Recipients(args, RECIPIENT_KEYS);
    var domains := Domains(rt, raws);
    if domains == [] then if raws != [] then Unknown else List([])
    else List(AsTexts(Distinct(domains, [])))
  }

  function RecipientCount(rt: Runtime, args: Args): Value {
    Num(|Domains(rt, Recipients(args, RECIPIENT_KEYS))| as real)
  }

  function ForwardSlashes(s: string): string {
    if s == "" then "" else [if s[0] == '\\' then '/' else s[0]] + ForwardSlashes(s[1..])
  }

  /** `extract_path` */
  function PathFact(args: Args, keys: seq<string>): (r: Value)
    ensures Whole(r)
  {
    if keys == [] then Unknown
    else if keys[0] in args && args[keys[0]].Str? && args[keys[0]].s != "" then Str(ForwardSlashes(args[keys[0]].s))
    else PathFact(args, keys[1..])
  }

  const EXTRACTORS := {"record_count", "recipient_domains", "recipient_count", "path"}

  function Derive(rt: Runtime, args: Args): (r: map<string, Value>)
    ensures r.Keys == EXTRACTORS && forall x | x in r :: Whole(r[x])
  {
    map["record_count" := RecordCount(args), "recipient_domains" := RecipientDomains(rt, args),
        "recipient_count" := RecipientCount(rt, args), "path" := PathFact(args, PATH_KEYS)]
  }

  // ---------------------------------------------------------------------------------------
  // The tree
  // ---------------------------------------------------------------------------------------

  const ROOTS := {"args", "derived", "context", "principal", "tool", "tenant_id", "agent_id"}

  /** The shape of a fact tree: only a derived fact may hold an UNKNOWN. */
  predicate FactTree(w: Value) {
    && w.Dict? && w.fields.Keys == ROOTS
    && w.fields["derived"].Dict? && w.fields["derived"].fields.Keys == EXTRACTORS
    && forall k | k in ROOTS && k != "derived" :: Known(w.fields[k])
  }

  /** What extractors deliver: each derived fact is UNKNOWN as a whole or not at all. */
  predicate BuiltFacts(w: Value) {
    FactTree(w) && forall x | x in EXTRACTORS :: Whole(w.fields["derived"].fields[x])
  }

  function Tree(tool: Value, tenant: Value, agent: Value, args: Value, derived: map<string, Value>, context: Value,
                principal: Value): Value
  {
    Dict(map["tool" := tool, "tenant_id" := tenant, "agent_id" := agent, "args" := args, "derived" := Dict(derived),
             "context" := context, "principal" := principal])
  }

  lemma TreeIsBuilt(tool: Value, tenant: Value, agent: Value, args: Value, derived: map<string, Value>, context: Value,
                    principal: Value)
    requires Known(tool) && Known(tenant) && Known(agent) && Known(args) && Known(context) && Known(principal)
    requires derived.Keys == EXTRACTORS && forall x | x in derived :: Whole(derived[x])
    ensures BuiltFacts(Tree(tool, tenant, agent, args, derived, context, principal))
  {
    hide Known, Whole;
    var fields := Tree(tool, tenant, agent, args, derived, context, principal).fields;
    assert fields["derived"] == Dict(derived);
    assert fields["tool"] == tool && fields["tenant_id"] == tenant && fields["agent_id"] == agent && fields["args"] == args;
    assert fields["context"] == context && fields["principal"] == principal;
  }

  /** `build_facts` */
  function BuildFacts(rt: Runtime, tenant: string, e: Envelope): (w: Value)
    ensures BuiltFacts(w)
  {
    var args := FromMembers(rt, e.arguments.members);
    var context, principal := FromJson(rt, e.context), FromJson(rt, e.principal);
    TreeIsBuilt(Str(e.tool), Str(tenant), Str(e.agentId), Dict(args), Derive(rt, args), context, principal);
    Tree(Str(e.tool), Str(tenant), Str(e.agentId), Dict(args), Derive(rt, args), context, principal)
  }

  // ---------------------------------------------------------------------------------------
  // What the facts say
  // ---------------------------------------------------------------------------------------

  /** Where a policy finds the request. */
  lemma FactsSay(rt: Runtime, tenant: string, e: Envelope)
    ensures var w := BuildFacts(rt, tenant, e);
            && w.fields["tool"] == Str(e.tool) && w.fields["tenant_id"] == Str(tenant)
            && w.fields["agent_id"] == Str(e.agentId) && w.fields["args"] == FromJson(rt, e.arguments)
            && w.fields["context"] == FromJson(rt, e.context) && w.fields["principal"] == FromJson(rt, e.principal)
            && var derived := w.fields["derived"].fields;
            var args := FromMembers(rt, e.arguments.members);
            && derived["record_count"] == RecordCount(args) && derived["recipient_domains"] == RecipientDomains(rt, args)
            && derived["recipient_count"] == RecipientCount(rt, args) && derived["path"] == PathFact(args, PATH_KEYS)
  {
    hide FromMembers, RecordCount, RecipientDomains, RecipientCount, PathFact, Known, Whole;
  }

  /** A document keeps its kind and its contents. */
  lemma DocumentSays(rt: Runtime, v: J.Json)
    requires J.WellFormed(v)
    ensures var r := FromJson(rt, v);
            match v
            case Null => r == Absent
            case Bool(b) => r == Policy.Bool(b)
            case Num(token) => r == Policy.Num(rt.number(token))
            case Str(s) => r == Policy.Str(s)
            case Arr(items) =>
              r.List? && |r.items| == |items| && forall i | 0 <= i < |items| :: r.items[i] == FromJson(rt, items[i])
            case Obj(members) =>
              && r.Dict? && r.fields.Keys == J.Keys(members)
              && forall m | m in members :: r.fields[m.key] == FromJson(rt, m.value)
  {
    match v
    case Arr(items) => ItemsAt(rt, items);
    case Obj(members) => MembersAt(rt, members);
    case _ =>
  }

  /** The first of these keys of which this holds. */
  ghost predicate FirstKey(keys: seq<string>, i: int, good: string -> bool) {
    0 <= i < |keys| && good(keys[i]) && forall j | 0 <= j < i :: !good(keys[j])
  }

  ghost predicate NoKey(keys: seq<string>, good: string -> bool) { forall k | k in keys :: !good(k) }

  function CountAt(args: Args): string -> bool {
    k => k in args && args[k].Num? && args[k].n.Floor as real == args[k].n
  }

  function ListAt(args: Args): string -> bool { k => k in args && args[k].List? }

  function TextAt(args: Args): string -> bool { k => k in args && args[k].Str? && args[k].s != "" }

  lemma NextKey(keys: seq<string>, i: int, good: string -> bool)
    requires keys != [] && !good(keys[0])
    ensures FirstKey(keys[1..], i, good) ==> FirstKey(keys, i + 1, good)
    ensures NoKey(keys[1..], good) ==> NoKey(keys, good)
  {
    assert keys == [keys[0]] + keys[1..];
    assert forall j | 0 < j < |keys| :: keys[j] == keys[1..][j - 1];
  }

  lemma {:induction false} FirstCountAt(args: Args, keys: seq<string>) returns (i: int)
    ensures var r := FirstCount(args, keys);
            if i < 0 then r == None && NoKey(keys, CountAt(args))
            else FirstKey(keys, i, CountAt(args)) && r == Some(args[keys[i]].n)
  {
    if keys == [] {
      return -1;
    }
    if CountAt(args)(keys[0]) {
      return 0;
    }
    i := FirstCountAt(args, keys[1..]);
    NextKey(keys, i, CountAt(args));
    i := if i < 0 then i else i + 1;
  }

  lemma {:induction false} FirstLengthAt(args: Args, keys: seq<string>) returns (i: int)
    ensures var r := FirstLength(args, keys);
            if i < 0 then r == None && NoKey(keys, ListAt(args))
            else FirstKey(keys, i, ListAt(args)) && r == Some(|args[keys[i]].items| as real)
  {
    if keys == [] {
      return -1;
    }
    if ListAt(args)(keys[0]) {
      return 0;
    }
    i := FirstLengthAt(args, keys[1..]);
    NextKey(keys, i, ListAt(args));
    i := if i < 0 then i else i + 1;
  }

  /** The record count: the first explicit whole number; failing that the length of the first list; failing that
      UNKNOWN, and never a guess. */
  lemma RecordCountSays(args: Args)
    ensures var counts := ["count", "record_count", "limit", "num_records", "n"];
            var lists := ["ids", "record_ids", "keys", "rows", "items", "documents"];
            var r := RecordCount(args);
            || (exists i :: FirstKey(counts, i, CountAt(args)) && r == args[counts[i]])
            || (NoKey(counts, CountAt(args))
                && exists i :: FirstKey(lists, i, ListAt(args)) && r == Num(|args[lists[i]].items| as real))
            || (NoKey(counts, CountAt(args)) && NoKey(lists, ListAt(args)) && r == Unknown)
  {
    var i := FirstCountAt(args, COUNT_KEYS);
    var j := FirstLengthAt(args, ID_LIST_KEYS);
    hide FirstKey, NoKey, FirstCount, FirstLength;
    if i >= 0 {
      CountIsNumber(args, COUNT_KEYS, i);
    }
  }

  lemma CountIsNumber(args: Args, keys: seq<string>, i: int)
    requires FirstKey(keys, i, CountAt(args))
    ensures Num(args[keys[i]].n) == args[keys[i]]
  {
  }

  lemma {:induction false} PathAt(args: Args, keys: seq<string>) returns (i: int)
    ensures var r := PathFact(args, keys);
            if i < 0 then r == Unknown && NoKey(keys, TextAt(args))
            else FirstKey(keys, i, TextAt(args)) && r == Str(ForwardSlashes(args[keys[i]].s))
  {
    if keys == [] {
      return -1;
    }
    if TextAt(args)(keys[0]) {
      return 0;
    }
    i := PathAt(args, keys[1..]);
    NextKey(keys, i, TextAt(args));
    i := if i < 0 then i else i + 1;
  }

  lemma {:induction false} SlashesAt(s: string)
    ensures |ForwardSlashes(s)| == |s|
    ensures forall i | 0 <= i < |s| :: ForwardSlashes(s)[i] == if s[i] == '\\' then '/' else s[i]
  {
    if s != "" {
      SlashesAt(s[1..]);
    }
  }

  /** The path: the first non-empty text under one of these keys, with forward slashes; UNKNOWN if there is none. */
  lemma PathSays(args: Args)
    ensures var keys := ["path", "file", "filename", "filepath", "key", "uri", "url"];
            var r := PathFact(args, PATH_KEYS);
            || (NoKey(keys, TextAt(args)) && r == Unknown)
            || (exists i :: FirstKey(keys, i, TextAt(args)) && r.Str? && |r.s| == |args[keys[i]].s|
                            && forall j | 0 <= j < |r.s| ::
                                 r.s[j] == if args[keys[i]].s[j] == '\\' then '/' else args[keys[i]].s[j])
  {
    var i := PathAt(args, PATH_KEYS);
    if i >= 0 {
      SlashesAt(args[PATH_KEYS[i]].s);
    }
    hide NoKey, ForwardSlashes, PathFact;
  }

  // --- recipients ------------------------------------------------------------------------

  /** The texts under one key, alone or in a list. */
  function TextsUnder(args: Args, key: string): seq<string> {
    if key !in args then []
    else if args[key].Str? then [args[key].s]
    else if args[key].List? then Texts(args[key].items)
    else []
  }

  lemma {:induction false} TextsAt(a: seq<Value>, b: seq<Value>)
    ensures Texts(a + b) == Texts(a) + Texts(b)
    ensures forall s :: Texts([Str(s)]) == [s]
    ensures forall v: Value | !v.Str? :: Texts([v]) == []
  {
    if a == [] {
      assert a + b == b;
    } else {
      assert (a + b)[1..] == a[1..] + b;
      TextsAt(a[1..], b);
    }
  }

  lemma OneKey(args: Args, key: string)
    ensures Recipients(args, [key]) == TextsUnder(args, key)
  {
    assert [key][1..] == [];
    if key in args && !args[key].List? {
      TextsAt([], []);
      assert args[key].Str? ==> args[key] == Str(args[key].s);
    }
  }

  lemma {:induction false} RecipientsConcat(args: Args, a: seq<string>, b: seq<string>)
    ensures Recipients(args, a + b) == Recipients(args, a) + Recipients(args, b)
  {
    if a == [] {
      assert a + b == b;
    } else {
      assert (a + b)[1..] == a[1..] + b;
      RecipientsConcat(args, a[1..], b);
    }
  }

  lemma ThreeKeys(args: Args, x: string, y: string, z: string)
    ensures Recipients(args, [x, y, z]) == TextsUnder(args, x) + TextsUnder(args, y) + TextsUnder(args, z)
  {
    hide Recipients, TextsUnder;
    assert [x, y, z] == [x] + [y] + [z];
    RecipientsConcat(args, [x] + [y], [z]);
    RecipientsConcat(args, [x], [y]);
    OneKey(args, x);
    OneKey(args, y);
    OneKey(args, z);
  }

  /** Recipients are the texts under these six keys, copies included. */
  lemma RecipientsSay(args: Args)
    ensures Recipients(args, RECIPIENT_KEYS)
         == TextsUnder(args, "to") + TextsUnder(args, "recipients") + TextsUnder(args, "cc")
            + (TextsUnder(args, "bcc") + TextsUnder(args, "email") + TextsUnder(args, "address"))
  {
    hide Recipients, TextsUnder;
    assert RECIPIENT_KEYS == ["to", "recipients", "cc"] + ["bcc", "email", "address"];
    RecipientsConcat(args, ["to", "recipients", "cc"], ["bcc", "email", "address"]);
    ThreeKeys(args, "to", "recipients", "cc");
    ThreeKeys(args, "bcc", "email", "address");
  }

  lemma {:induction false} FoldedAt(rt: Runtime, texts: seq<string>)
    ensures |Folded(rt, texts)| == |texts| && forall i | 0 <= i < |texts| :: Folded(rt, texts)[i] == rt.fold(texts[i])
  {
    if texts != [] {
      FoldedAt(rt, texts[1..]);
    }
  }

  /** The addresses found in these texts. */
  function AddressCount(rt: Runtime, raws: seq<string>): nat {
    if raws == [] then 0 else |rt.mailDomains(raws[0])| + AddressCount(rt, raws[1..])
  }

  lemma {:induction false} DomainsAt(rt: Runtime, raws: seq<string>)
    ensures |Domains(rt, raws)| == AddressCount(rt, raws)
    ensures forall d :: d in Domains(rt, raws)
                   <==> exists raw, m :: raw in raws && m in rt.mailDomains(raw) && d == rt.fold(m)
  {
    if raws != [] {
      DomainsAt(rt, raws[1..]);
      FoldedAt(rt, rt.mailDomains(raws[0]));
      hide Folded;
      assert raws == [raws[0]] + raws[1..];
      var here := Folded(rt, rt.mailDomains(raws[0]));
      forall d ensures d in here <==> exists m :: m in rt.mailDomains(raws[0]) && d == rt.fold(m) {
        if d in here {
          var i :| 0 <= i < |here| && here[i] == d;
        }
        if m :| m in rt.mailDomains(raws[0]) && d == rt.fold(m) {
          var i :| 0 <= i < |rt.mailDomains(raws[0])| && rt.mailDomains(raws[0])[i] == m;
          assert here[i] == d;
        }
      }
    }
  }

  function FirstPlace(texts: seq<string>, t: string): nat {
    if texts == [] || texts[0] == t then 0 else 1 + FirstPlace(texts[1..], t)
  }

  /** Each of them, but those seen before, once and in the order of first occurrence. */
  ghost predicate FirstOccurrences(r: seq<string>, texts: seq<string>, seen: seq<string>) {
    && (forall t :: t in r <==> t in texts && t !in seen)
    && (forall i, j | 0 <= i < j < |r| :: FirstPlace(texts, r[i]) < FirstPlace(texts, r[j]))
  }

  lemma {:induction false} DistinctAt(texts: seq<string>, seen: seq<string>)
    ensures FirstOccurrences(Distinct(texts, seen), texts, seen)
  {
    if texts != [] {
      var known := if texts[0] in seen then seen else seen + [texts[0]];
      var rest := Distinct(texts[1..], known);
      DistinctAt(texts[1..], known);
      assert texts == [texts[0]] + texts[1..];
      forall i | 0 <= i < |rest| ensures FirstPlace(texts, rest[i]) == 1 + FirstPlace(texts[1..], rest[i]) {
        assert rest[i] in rest;
      }
    }
  }

  /** The list names exactly the folded domains of the addresses in these texts, each once, in order. */
  ghost predicate NamesDomains(rt: Runtime, r: Value, raws: seq<string>) {
    exists ds: seq<string> :: ListsTexts(r, ds) && FirstOccurrences(ds, Domains(rt, raws), [])
  }

  ghost predicate ListsTexts(r: Value, texts: seq<string>) {
    r.List? && |r.items| == |texts| && forall i | 0 <= i < |texts| :: r.items[i] == Str(texts[i])
  }

  lemma {:induction false} TextsListed(texts: seq<string>)
    ensures ListsTexts(List(AsTexts(texts)), texts)
  {
    if texts != [] {
      TextsListed(texts[1..]);
    }
  }

  lemma DistinctNames(rt: Runtime, raws: seq<string>)
    ensures NamesDomains(rt, List(AsTexts(Distinct(Domains(rt, raws), []))), raws)
  {
    DistinctAt(Domains(rt, raws), []);
    TextsListed(Distinct(Domains(rt, raws), []));
    hide Distinct, Domains, AsTexts, ListsTexts;
  }

  /** The recipients' domains: UNKNOWN where there are recipients but no address is found in them; otherwise every
      folded domain once, in order, and none where there is no recipient. */
  lemma RecipientDomainsSay(rt: Runtime, args: Args)
    ensures var raws := Recipients(args, RECIPIENT_KEYS);
            var r := RecipientDomains(rt, args);
            && RecipientCount(rt, args) == Num(AddressCount(rt, raws) as real)
            && (r == Unknown <==> raws != [] && AddressCount(rt, raws) == 0)
            && (r != Unknown ==> NamesDomains(rt, r, raws))
  {
    var raws := Recipients(args, RECIPIENT_KEYS);
    DomainsAt(rt, raws);
    DistinctNames(rt, raws);
    assert Distinct([], []) == [] && AsTexts([]) == [];
    hide Recipients, NamesDomains, Distinct, Domains, AddressCount;
  }

  // ---------------------------------------------------------------------------------------
  // What a loaded bundle may look at
  // ---------------------------------------------------------------------------------------

  /** `Predicate._validate`: a known root, and behind `derived` the name of an extractor and nothing more. */
  predicate ValidPath(path: Path) {
    path != [] && path[0] in ROOTS && (path[0] == "derived" ==> |path| == 2 && path[1] in EXTRACTORS)
  }

  /** Load-time validation, as far as evaluation depends on it. */
  ghost predicate Loaded(b: Bundle) {
    && UniqueIds(b.rules)
    && forall r, c | r in b.rules && (c in r.when.all || c in r.when.any) :: ValidPath(c.path)
  }

  // ---------------------------------------------------------------------------------------
  // Facts rebuilt from a record
  // ---------------------------------------------------------------------------------------

  lemma TailKeys(members: seq<J.Member>)
    requires J.DistinctKeysOf(members) && members != []
    ensures J.DistinctKeysOf(members[1..])
    ensures forall m | m in members[1..] :: m.key != members[0].key
    ensures J.Keys(members) == {members[0].key} + J.Keys(members[1..])
  {
    var rest := members[1..];
    assert members == [members[0]] + rest;
    forall m | m in rest ensures m.key != members[0].key {
      var i :| 0 <= i < |rest| && rest[i] == m;
      assert members[i + 1] == m;
    }
  }

  lemma HeadOrTail(members: seq<J.Member>, m: J.Member)
    requires m in members
    ensures m == members[0] || m in members[1..]
  {
    assert members == [members[0]] + members[1..];
  }

  lemma {:induction false} MembersAt(rt: Runtime, members: seq<J.Member>)
    requires J.DistinctKeysOf(members)
    ensures FromMembers(rt, members).Keys == J.Keys(members)
    ensures forall m | m in members :: FromMembers(rt, members)[m.key] == FromJson(rt, m.value)
  {
    hide FromJson;
    if members != [] {
      TailKeys(members);
      hide J.DistinctKeysOf, J.Keys;
      MembersAt(rt, members[1..]);
      forall m | m in members
        ensures m.key in FromMembers(rt, members) && FromMembers(rt, members)[m.key] == FromJson(rt, m.value)
      {
        HeadOrTail(members, m);
      }
    }
  }

  lemma {:induction false} ItemsAt(rt: Runtime, items: seq<J.Json>)
    ensures |FromItems(rt, items)| == |items|
    ensures forall i | 0 <= i < |items| :: FromItems(rt, items)[i] == FromJson(rt, items[i])
  {
    if items != [] {
      ItemsAt(rt, items[1..]);
      hide FromJson;
    }
  }

  /** The order of dictionary entries does not show in the facts. */
  lemma {:induction false} CanonicalFacts(rt: Runtime, v: J.Json)
    requires J.WellFormed(v)
    ensures FromJson(rt, J.Canonical(v)) == FromJson(rt, v)
  {
    match v
    case Arr(items) =>
      var cs := J.CanonicalItems(items);
      forall i | 0 <= i < |items| ensures FromJson(rt, cs[i]) == FromJson(rt, items[i]) {
        CanonicalFacts(rt, items[i]);
      }
      ItemsAt(rt, items);
      ItemsAt(rt, cs);
      assert FromItems(rt, cs) == FromItems(rt, items);
    case Obj(members) =>
      forall m | m in members ensures FromJson(rt, J.Canonical(m.value)) == FromJson(rt, m.value) {
        CanonicalFacts(rt, m.value);
      }
      SameMembers(rt, members);
    case _ =>
  }

  lemma CanonicalEntries(members: seq<J.Member>)
    requires J.DistinctKeysOf(members)
    ensures var cs := J.Canonical(J.Obj(members)).members;
            && J.DistinctKeysOf(cs)
            && (forall m | m in members :: J.Member(m.key, J.Canonical(m.value)) in cs)
            && (forall c | c in cs :: exists m | m in members :: c == J.Member(m.key, J.Canonical(m.value)))
  {
    var cs := J.Canonical(J.Obj(members)).members;
    J.CanonicalDistinct(members);
    forall c ensures c in cs <==> exists m | m in members :: c == J.Member(m.key, J.Canonical(m.value)) {
      J.CanonicalMembership(members, c);
    }
    hide J.Canonical, J.DistinctKeysOf;
    forall m | m in members ensures J.Member(m.key, J.Canonical(m.value)) in cs {
      assert exists n | n in members :: J.Member(m.key, J.Canonical(m.value)) == J.Member(n.key, J.Canonical(n.value));
    }
  }

  lemma SameMembers(rt: Runtime, members: seq<J.Member>)
    requires J.DistinctKeysOf(members)
    requires forall m | m in members :: FromJson(rt, J.Canonical(m.value)) == FromJson(rt, m.value)
    ensures FromMembers(rt, J.Canonical(J.Obj(members)).members) == FromMembers(rt, members)
  {
    var cs := J.Canonical(J.Obj(members)).members;
    hide FromMembers, FromJson, J.Canonical, J.DistinctKeysOf;
    CanonicalEntries(members);
    MembersAt(rt, members);
    MembersAt(rt, cs);
    forall m | m in members
      ensures m.key in FromMembers(rt, cs) && FromMembers(rt, cs)[m.key] == FromMembers(rt, members)[m.key]
    {
      assert J.Member(m.key, J.Canonical(m.value)) in cs;
    }
    SameMaps(FromMembers(rt, members), FromMembers(rt, cs), members, cs);
  }

  /** Two dictionaries, the second of the canonical entries of the first. */
  lemma SameMaps(a: map<string, Value>, b: map<string, Value>, members: seq<J.Member>, cs: seq<J.Member>)
    requires a.Keys == J.Keys(members) && b.Keys == J.Keys(cs)
    requires forall m | m in members :: J.Member(m.key, J.Canonical(m.value)) in cs
    requires forall c | c in cs :: exists m | m in members :: c == J.Member(m.key, J.Canonical(m.value))
    requires forall m | m in members :: m.key in b && b[m.key] == a[m.key]
    ensures a == b
  {
    hide J.Canonical;
    forall k ensures k in a <==> k in b {
      if k in b {
        var c :| c in cs && c.key == k;
      }
    }
  }

  function CanonicalDocument(v: J.Document): J.Document {
    J.CanonicalWellFormed(v);
    J.Canonical(v)
  }

  /** The envelope as its audit record says it. */
  function ReadBack(e: Envelope): Envelope {
    Envelope(e.tool, e.agentId, CanonicalDocument(e.arguments), CanonicalDocument(e.context), CanonicalDocument(e.principal))
  }

  /** A past decision can be reproduced: rebuilt from what the record says, the facts are those that were evaluated. */
  lemma {:induction false} FactsReproducible(rt: Runtime, tenant: string, e: Envelope)
    ensures BuildFacts(rt, tenant, ReadBack(e)) == BuildFacts(rt, tenant, e)
  {
    CanonicalFacts(rt, e.arguments);
    CanonicalFacts(rt, e.context);
    CanonicalFacts(rt, e.principal);
    hide Derive;
  }
}
