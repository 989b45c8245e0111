/** JSON documents, the canonical text that is hashed and stored, and the reader that brings it back.
    Numbers are opaque tokens: a token is printed as it was read. */
module Json {
  import opened Order

  datatype Json =
    | Null
    | Bool(b: bool)
    | Num(token: string)
    | Str(s: string)
    | Arr(items: seq<Json>)
    | Obj(members: seq<Member>)

  /** One entry of a Python dictionary with string keys; a dictionary is a sequence of entries in insertion order. */
  datatype Member = Member(key: string, value: Json)

  const KeyOf: Member -> string := (m: Member) => m.key

  // ---------------------------------------------------------------------------------------
  // Well-formed documents: number tokens are numbers, dictionary keys are distinct
  // ---------------------------------------------------------------------------------------

  predicate IsDigit(c: char) { '0' <= c <= '9' }

  predicate IsWordChar(c: char) {
    IsDigit(c) || 'a' <= c <= 'z' || 'A' <= c <= 'Z' || c == '+' || c == '-' || c == '.'
  }

  /** Skips the decimal digits at the front. */
  function AfterDigits(s: string): (r: string)
    ensures |r| <= |s|
  {
    if |s| > 0 && IsDigit(s[0]) then AfterDigits(s[1..]) else s
  }

  /** RFC 8259 section 6, exponent part onwards. */
  predicate IsExponentTail(s: string) {
    s == "" ||
    ((s[0] == 'e' || s[0] == 'E') &&
     var t := if |s| > 1 && (s[1] == '+' || s[1] == '-') then s[2..] else s[1..];
     t != "" && AfterDigits(t) == "")
  }

  predicate IsFractionTail(s: string) {
    IsExponentTail(s) ||
    (s != "" && s[0] == '.' && |s| > 1 && IsDigit(s[1]) && IsExponentTail(AfterDigits(s[1..])))
  }

  /** RFC 8259 section 6, plus the three tokens Python's json module adds. */
  predicate IsNumber(token: string) {
    token == "NaN" || token == "Infinity" || token == "-Infinity" ||
    var t := if token != "" && token[0] == '-' then token[1..] else token;
    t != "" && IsDigit(t[0]) && IsFractionTail(if t[0] == '0' then t[1..] else AfterDigits(t))
  }

  predicate IsWord(s: string) { forall i | 0 <= i < |s| :: IsWordChar(s[i]) }

  predicate WellFormed(v: Json) {
    match v
    case Num(token) => IsWord(token) && IsNumber(token)
    case Arr(items) => forall x | x in items :: WellFormed(x)
    case Obj(members) => DistinctKeysOf(members) && forall m | m in members :: WellFormed(m.value)
    case _ => true
  }

  predicate DistinctKeysOf(members: seq<Member>) {
    forall i, j | 0 <= i < j < |members| :: members[i].key != members[j].key
  }

  /** A document that is a mapping. */
  type Document = v: Json | v.Obj? && WellFormed(v) witness Obj([])

  // ---------------------------------------------------------------------------------------
  // Canonical form and writer: json.dumps(sort_keys=True, separators=(",", ":"), ensure_ascii=False)
  // ---------------------------------------------------------------------------------------

  /** Every dictionary, at every depth, in key order. */
  function Canonical(v: Json): Json {
    match v
    case Arr(items) => Arr(CanonicalItems(items))
    case Obj(members) => Obj(SortOn(CanonicalMembers(members), KeyOf))
    case _ => v
  }

  function CanonicalItems(items: seq<Json>): (r: seq<Json>)
    ensures |r| == |items| && forall i | 0 <= i < |items| :: r[i] == Canonical(items[i])
  {
    if items == [] then [] else [Canonical(items[0])] + CanonicalItems(items[1..])
  }

  function CanonicalMembers(members: seq<Member>): (r: seq<Member>)
    ensures |r| == |members|
    ensures forall i | 0 <= i < |members| :: r[i] == Member(members[i].key, Canonical(members[i].value))
  {
    if members == [] then []
    else [Member(members[0].key, Canonical(members[0].value))] + CanonicalMembers(members[1..])
  }

  function HexDigit(d: int): char
    requires 0 <= d < 16
  {
    "0123456789abcdef"[d]
  }

  function EscapeChar(c: char): string {
    if c == '"' then "\\\""
    else if c == '\\' then "\\\\"
    else if c == '\n' then "\\n"
    else if c == '\r' then "\\r"
    else if c == '\t' then "\\t"
    else if c as int == 8 then "\\b"
    else if c as int == 12 then "\\f"
    else if c as int < 32 then "\\u00" + [HexDigit(c as int / 16), HexDigit(c as int % 16)]
    else [c]
  }

  function Escape(s: string): string {
    if s == "" then "" else EscapeChar(s[0]) + Escape(s[1..])
  }

  function Quote(s: string): string { "\"" + Escape(s) + "\"" }

  function Write(v: Json): string {
    match v
    case Null => "null"
    case Bool(b) => if b then "true" else "false"
    case Num(token) => token
    case Str(s) => Quote(s)
    case Arr(items) => "[" + (if items == [] then "]" else WriteItems(items))
    case Obj(members) => "{" + (if members == [] then "}" else WriteMembers(members))
  }

  function WriteItems(items: seq<Json>): string
    requires items != []
  {
    Write(items[0]) + (if |items| == 1 then "]" else "," + WriteItems(items[1..]))
  }

  function WriteMembers(members: seq<Member>): string
    requires members != []
  {
    Quote(members[0].key) + ":" + Write(members[0].value)
    + (if |members| == 1 then "}" else "," + WriteMembers(members[1..]))
  }

  /** `canonical_json` */
  function CanonicalJson(v: Json): string { Write(Canonical(v)) }

  // ---------------------------------------------------------------------------------------
  // Reader: json.loads, after RFC 8259 sections 2 to 7
  // ---------------------------------------------------------------------------------------

  datatype Parsed<+T> = Fail | Done(value: T, rest: string)

  predicate IsSpace(c: char) { c == ' ' || c == '\t' || c == '\n' || c == '\r' }

  function SkipSpace(s: string): (r: string)
    ensures |r| <= |s|
    ensures s != "" && !IsSpace(s[0]) ==> r == s
  {
    if s != "" && IsSpace(s[0]) then SkipSpace(s[1..]) else s
  }

  function HexValue(c: char): Option<int> {
    if '0' <= c <= '9' then Some(c as int - '0' as int)
    else if 'a' <= c <= 'f' then Some(c as int - 'a' as int + 10)
    else if 'A' <= c <= 'F' then Some(c as int - 'A' as int + 10)
    else None
  }

  /** The character a `\u` escape names; surrogate halves are not characters here. */
  function UnicodeEscape(s: string): Parsed<char> {
    if |s| < 4 then Fail
    else match (HexValue(s[0]), HexValue(s[1]), HexValue(s[2]), HexValue(s[3]))
      case (Some(a), Some(b), Some(c), Some(d)) =>
        var code := ((a * 16 + b) * 16 + c) * 16 + d;
        if 0 <= code < 0xD800 || 0xE000 <= code < 0x10000 then Done(code as char, s[4..]) else Fail
      case _ => Fail
  }

  function ParseEscape(s: string): (r: Parsed<char>)
    ensures r.Done? ==> |r.rest| < |s|
  {
    if s == "" then Fail
    else if s[0] == '"' || s[0] == '\\' || s[0] == '/' then Done(s[0], s[1..])
    else if s[0] == 'b' then Done(8 as char, s[1..])
    else if s[0] == 'f' then Done(12 as char, s[1..])
    else if s[0] == 'n' then Done('\n', s[1..])
    else if s[0] == 'r' then Done('\r', s[1..])
    else if s[0] == 't' then Done('\t', s[1..])
    else if s[0] == 'u' then UnicodeEscape(s[1..])
    else Fail
  }

  /** The rest of a string literal whose opening quote has been read. */
  function ParseString(s: string): (r: Parsed<string>)
    ensures r.Done? ==> |r.rest| < |s|
  {
    if s == "" || (s[0] as int < 32) then Fail
    else if s[0] == '"' then Done("", s[1..])
    else if s[0] == '\\' then
      match ParseEscape(s[1..])
      case Fail => Fail
      case Done(c, rest) =>
        (match ParseString(rest)
         case Fail => Fail
         case Done(cs, end) => Done([c] + cs, end))
    else
      match ParseString(s[1..])
      case Fail => Fail
      case Done(cs, end) => Done([s[0]] + cs, end)
  }

  function WordLength(s: string): (n: nat)
    ensures n <= |s|
  {
    if s != "" && IsWordChar(s[0]) then 1 + WordLength(s[1..]) else 0
  }

  function ParseWord(s: string): (r: Parsed<Json>)
    ensures r.Done? ==> |r.rest| < |s|
  {
    var n := WordLength(s);
    var w := s[..n];
    if w == "null" then Done(Null, s[n..])
    else if w == "true" then Done(Bool(true), s[n..])
    else if w == "false" then Done(Bool(false), s[n..])
    else if IsNumber(w) then Done(Num(w), s[n..])
    else Fail
  }

  /** Later duplicates of a key replace the value in place, as building a Python dictionary does. */
  function PutMember(members: seq<Member>, m: Member): seq<Member> {
    if members == [] then [m]
    else if members[0].key == m.key then [m] + members[1..]
    else [members[0]] + PutMember(members[1..], m)
  }

  function FromPairs(pairs: seq<Member>): seq<Member> {
    if pairs == [] then [] else PutMember(FromPairs(pairs[..|pairs| - 1]), pairs[|pairs| - 1])
  }

  function ParseValue(s: string): (r: Parsed<Json>)
    ensures r.Done? ==> |r.rest| < |s|
    decreases |s|, 0
  {
    var t := SkipSpace(s);
    if t == "" then Fail
    else if t[0] == '"' then
      match ParseString(t[1..])
      case Fail => Fail
      case Done(cs, rest) => Done(Str(cs), rest)
    else if t[0] == '[' then
      var u := SkipSpace(t[1..]);
      if u != "" && u[0] == ']' then Done(Arr([]), u[1..])
      else
        match ParseItems(u)
        case Fail => Fail
        case Done(items, rest) => Done(Arr(items), rest)
    else if t[0] == '{' then
      var u := SkipSpace(t[1..]);
      if u != "" && u[0] == '}' then Done(Obj([]), u[1..])
      else
        match ParseMembers(u)
        case Fail => Fail
        case Done(pairs, rest) => Done(Obj(FromPairs(pairs)), rest)
    else ParseWord(t)
  }

  /** The rest of an array whose bracket has been read, up to and including the closing one. */
  function ParseItems(s: string): (r: Parsed<seq<Json>>)
    ensures r.Done? ==> |r.rest| < |s|
    decreases |s|, 1
  {
    match ParseValue(s)
    case Fail => Fail
    case Done(v, rest) =>
      var t := SkipSpace(rest);
      if t == "" then Fail
      else if t[0] == ']' then Done([v], t[1..])
      else if t[0] == ',' then
        match ParseItems(t[1..])
        case Fail => Fail
        case Done(vs, end) => Done([v] + vs, end)
      else Fail
  }

  /** The rest of an object whose brace has been read, up to and including the closing one. */
  function ParseMembers(s: string): (r: Parsed<seq<Member>>)
    ensures r.Done? ==> |r.rest| < |s|
    decreases |s|, 1
  {
    var t := SkipSpace(s);
    if t == "" || t[0] != '"' then Fail
    else
      match ParseString(t[1..])
      case Fail => Fail
      case Done(key, afterKey) =>
        var u := SkipSpace(afterKey);
        if u == "" || u[0] != ':' then Fail
        else
          match ParseValue(u[1..])
          case Fail => Fail
          case Done(v, rest) =>
            var w := SkipSpace(rest);
            if w == "" then Fail
            else if w[0] == '}' then Done([Member(key, v)], w[1..])
            else if w[0] == ',' then
              match ParseMembers(w[1..])
              case Fail => Fail
              case Done(ms, end) => Done([Member(key, v)] + ms, end)
            else Fail
  }

  /** `json.loads` */
  function Loads(s: string): Option<Json> {
    match ParseValue(s)
    case Done(v, rest) => if SkipSpace(rest) == "" then Some(v) else None
    case Fail => None
  }

  // ---------------------------------------------------------------------------------------
  // Reading back what was written
  // ---------------------------------------------------------------------------------------

  lemma EscapeRead(c: char, rest: string)
    ensures ParseString(EscapeChar(c) + rest)
         == match ParseString(rest) { case Fail => Fail case Done(cs, end) => Done([c] + cs, end) }
  {
    var e := EscapeChar(c);
    var s := e + rest;
    if e == [c] {
      assert s[0] == c && s[1..] == rest;
    } else {
      assert e[0] == '\\' && s[0] == '\\';
      assert s[1..] == e[1..] + rest;
      if |e| == 2 {
        assert s[1..][1..] == rest;
        assert ParseEscape(s[1..]) == Done(c, rest);
      } else {
        var d := c as int;
        var t := s[1..][1..];
        assert e == ['\\', 'u', '0', '0', HexDigit(d / 16), HexDigit(d % 16)];
        assert t == ['0', '0', HexDigit(d / 16), HexDigit(d % 16)] + rest;
        assert t[4..] == rest;
        HexRead(d / 16);
        HexRead(d % 16);
        assert UnicodeEscape(t) == Done(d as char, rest);
        assert s[1..][0] == 'u';
        assert ParseEscape(s[1..]) == Done(c, rest);
      }
    }
  }

  lemma HexRead(d: int)
    requires 0 <= d < 16
    ensures HexValue(HexDigit(d)) == Some(d)
  {
  }

  lemma {:induction false} StringRead(s: string, rest: string)
    ensures ParseString(Escape(s) + "\"" + rest) == Done(s, rest)
  {
    if s == "" {
      assert (Escape(s) + "\"" + rest)[1..] == rest;
    } else {
      var tail := Escape(s[1..]) + "\"" + rest;
      assert Escape(s) + "\"" + rest == EscapeChar(s[0]) + tail;
      StringRead(s[1..], rest);
      EscapeRead(s[0], tail);
      assert [s[0]] + s[1..] == s;
    }
  }

  /** What may follow a value inside a document: nothing that could extend a word. */
  predicate Delimited(rest: string) { rest == "" || !IsWordChar(rest[0]) }

  lemma {:induction false} WordRead(w: string, rest: string)
    requires IsWord(w) && Delimited(rest)
    ensures WordLength(w + rest) == |w|
  {
    if w == "" {
      assert w + rest == rest;
    } else {
      assert (w + rest)[1..] == w[1..] + rest;
      WordRead(w[1..], rest);
    }
  }

  lemma WordValueRead(v: Json, rest: string)
    requires v.Null? || v.Bool? || v.Num?
    requires WellFormed(v) && Delimited(rest)
    ensures ParseValue(Write(v) + rest) == Done(v, rest)
  {
    var w := Write(v);
    var s := w + rest;
    assert IsWord("null") && IsWord("true") && IsWord("false");
    if v.Num? {
      NumberIsNotKeyword(v.token);
    }
    WordRead(w, rest);
    assert s[..|w|] == w && s[|w|..] == rest;
    assert ParseWord(s) == Done(v, rest);
    assert IsWordChar(w[0]) && s[0] == w[0];
    WordStart(s);
  }

  lemma WordStart(s: string)
    requires s != "" && IsWordChar(s[0])
    ensures ParseValue(s) == ParseWord(s)
  {
    assert SkipSpace(s) == s;
  }

  lemma NumberIsNotKeyword(token: string)
    requires IsNumber(token)
    ensures token != "" && token != "null" && token != "true" && token != "false"
  {
  }

  lemma {:induction false} PutNewMember(members: seq<Member>, m: Member)
    requires forall x | x in members :: x.key != m.key
    ensures PutMember(members, m) == members + [m]
  {
    if members != [] {
      assert members == [members[0]] + members[1..];
      PutNewMember(members[1..], m);
    }
  }

  lemma {:induction false} FromDistinctPairs(pairs: seq<Member>)
    requires DistinctKeysOf(pairs)
    ensures FromPairs(pairs) == pairs
  {
    if pairs != [] {
      var n := |pairs| - 1;
      FromDistinctPairs(pairs[..n]);
      PutNewMember(pairs[..n], pairs[n]);
      assert pairs == pairs[..n] + [pairs[n]];
    }
  }

  lemma {:induction false} ValueRead(v: Json, rest: string)
    requires WellFormed(v) && Delimited(rest)
    ensures ParseValue(Write(v) + rest) == Done(v, rest)
    decreases v, 1
  {
    match v
    case Str(cs) => StringValueRead(cs, rest);
    case Arr(items) =>
      if items != [] {
        ItemsRead(v, items, rest);
      }
      ArrayValueRead(items, rest);
    case Obj(members) =>
      if members != [] {
        MembersRead(v, members, rest);
      }
      ObjectValueRead(members, rest);
    case _ => WordValueRead(v, rest);
  }

  lemma StringValueRead(cs: string, rest: string)
    ensures ParseValue(Write(Str(cs)) + rest) == Done(Str(cs), rest)
  {
    var s := Write(Str(cs)) + rest;
    assert s[0] == '"' && s[1..] == Escape(cs) + "\"" + rest;
    assert SkipSpace(s) == s;
    StringRead(cs, rest);
  }

  lemma ArrayValueRead(items: seq<Json>, rest: string)
    requires items != [] ==> WellFormed(items[0]) && ParseItems(WriteItems(items) + rest) == Done(items, rest)
    ensures ParseValue(Write(Arr(items)) + rest) == Done(Arr(items), rest)
  {
    var body := (if items == [] then "]" else WriteItems(items)) + rest;
    Assoc("[", if items == [] then "]" else WriteItems(items), rest);
    if items == [] {
      assert body[1..] == rest;
    } else {
      WriteStart(items[0]);
      assert body[0] == Write(items[0])[0];
    }
    ArrayRead(body, items, rest);
  }

  lemma ObjectValueRead(members: seq<Member>, rest: string)
    requires DistinctKeysOf(members)
    requires members != [] ==> ParseMembers(WriteMembers(members) + rest) == Done(members, rest)
    ensures ParseValue(Write(Obj(members)) + rest) == Done(Obj(members), rest)
  {
    var body := (if members == [] then "}" else WriteMembers(members)) + rest;
    Assoc("{", if members == [] then "}" else WriteMembers(members), rest);
    assert if members == [] then body[1..] == rest else body[0] == '"';
    FromDistinctPairs(members);
    ObjectRead(body, members, rest);
  }

  lemma ArrayRead(body: string, items: seq<Json>, rest: string)
    requires body != "" && !IsSpace(body[0])
    requires if body[0] == ']' then items == [] && body[1..] == rest else ParseItems(body) == Done(items, rest)
    ensures ParseValue("[" + body) == Done(Arr(items), rest)
  {
    var s := "[" + body;
    assert s[0] == '[' && s[1..] == body;
    assert SkipSpace(s) == s && SkipSpace(body) == body;
  }

  lemma ObjectRead(body: string, members: seq<Member>, rest: string)
    requires body != "" && !IsSpace(body[0])
    requires FromPairs(members) == members
    requires if body[0] == '}' then members == [] && body[1..] == rest else ParseMembers(body) == Done(members, rest)
    ensures ParseValue("{" + body) == Done(Obj(members), rest)
  {
    var s := "{" + body;
    assert s[0] == '{' && s[1..] == body;
    assert SkipSpace(s) == s && SkipSpace(body) == body;
  }

  /** A written value never starts with white space or a closing bracket. */
  lemma WriteStart(v: Json)
    requires WellFormed(v)
    ensures Write(v) != "" && !IsSpace(Write(v)[0]) && Write(v)[0] != ']'
  {
    if v.Num? {
      NumberIsNotKeyword(v.token);
    }
  }

  /** What follows the first of several items or members: the rest of them, or the closing bracket. */
  function AfterFirst(count: nat, others: string, close: char, rest: string): string {
    if count == 1 then [close] + rest else [','] + (others + rest)
  }

  lemma AfterFirstTail(count: nat, others: string, close: char, rest: string)
    ensures var after := AfterFirst(count, others, close, rest);
            after != "" && after[0] == (if count == 1 then close else ',')
            && after[1..] == if count == 1 then rest else others + rest
  {
  }

  lemma Assoc(a: string, b: string, c: string)
    ensures (a + b) + c == a + (b + c)
  {
  }

  lemma ItemsUnfold(items: seq<Json>, rest: string)
    requires items != []
    ensures WriteItems(items) + rest
         == Write(items[0]) + AfterFirst(|items|, if |items| == 1 then "" else WriteItems(items[1..]), ']', rest)
  {
    var others := if |items| == 1 then "" else WriteItems(items[1..]);
    Assoc(Write(items[0]), if |items| == 1 then "]" else "," + others, rest);
    Assoc(",", others, rest);
  }

  lemma MembersUnfold(members: seq<Member>, rest: string)
    requires members != []
    ensures WriteMembers(members) + rest
         == Quote(members[0].key) + (":" + (Write(members[0].value)
            + AfterFirst(|members|, if |members| == 1 then "" else WriteMembers(members[1..]), '}', rest)))
  {
    var others := if |members| == 1 then "" else WriteMembers(members[1..]);
    var q, w := Quote(members[0].key), Write(members[0].value);
    var t := if |members| == 1 then "}" else "," + others;
    Assoc(q + ":" + w, t, rest);
    Assoc(q + ":", w, t + rest);
    Assoc(q, ":", w + (t + rest));
    Assoc(",", others, rest);
  }

  lemma {:induction false} ItemsRead(whole: Json, items: seq<Json>, rest: string)
    requires items != [] && forall x | x in items :: WellFormed(x) && x < whole
    ensures ParseItems(WriteItems(items) + rest) == Done(items, rest)
    decreases whole, 0, |items|
  {
    assert items[0] in items;
    var others := if |items| == 1 then "" else WriteItems(items[1..]);
    var after := AfterFirst(|items|, others, ']', rest);
    AfterFirstTail(|items|, others, ']', rest);
    ValueRead(items[0], after);
    if |items| > 1 {
      ItemsRead(whole, items[1..], rest);
    }
    ItemsUnfold(items, rest);
    ItemsReadStep(items, Write(items[0]) + after, others, rest);
  }

  lemma ItemsReadStep(items: seq<Json>, s: string, others: string, rest: string)
    requires items != []
    requires ParseValue(s) == Done(items[0], AfterFirst(|items|, others, ']', rest))
    requires |items| > 1 ==> ParseItems(others + rest) == Done(items[1..], rest)
    ensures ParseItems(s) == Done(items, rest)
  {
    AfterFirstTail(|items|, others, ']', rest);
    ItemRead(s, items[0], AfterFirst(|items|, others, ']', rest));
    assert items == if |items| == 1 then [items[0]] else [items[0]] + items[1..];
  }

  lemma ItemRead(s: string, v: Json, after: string)
    requires after != "" && (after[0] == ']' || after[0] == ',')
    requires ParseValue(s) == Done(v, after)
    ensures ParseItems(s)
         == if after[0] == ']' then Done([v], after[1..])
            else match ParseItems(after[1..])
                 case Fail => Fail
                 case Done(vs, end) => Done([v] + vs, end)
  {
    assert SkipSpace(after) == after;
  }

  lemma {:induction false} MembersRead(whole: Json, members: seq<Member>, rest: string)
    requires members != [] && forall m | m in members :: WellFormed(m.value) && m.value < whole
    ensures ParseMembers(WriteMembers(members) + rest) == Done(members, rest)
    decreases whole, 0, |members|
  {
    assert members[0] in members;
    var others := if |members| == 1 then "" else WriteMembers(members[1..]);
    var after := AfterFirst(|members|, others, '}', rest);
    AfterFirstTail(|members|, others, '}', rest);
    ValueRead(members[0].value, after);
    if |members| > 1 {
      MembersRead(whole, members[1..], rest);
    }
    MembersUnfold(members, rest);
    MembersReadStep(members, Write(members[0].value) + after, others, rest);
  }

  lemma MembersReadStep(members: seq<Member>, value: string, others: string, rest: string)
    requires members != []
    requires ParseValue(value) == Done(members[0].value, AfterFirst(|members|, others, '}', rest))
    requires |members| > 1 ==> ParseMembers(others + rest) == Done(members[1..], rest)
    ensures ParseMembers(Quote(members[0].key) + (":" + value)) == Done(members, rest)
  {
    AfterFirstTail(|members|, others, '}', rest);
    MemberRead(members[0], value, AfterFirst(|members|, others, '}', rest));
    assert members == if |members| == 1 then [members[0]] else [members[0]] + members[1..];
  }

  lemma MemberRead(m: Member, value: string, after: string)
    requires after != "" && (after[0] == '}' || after[0] == ',')
    requires ParseValue(value) == Done(m.value, after)
    ensures ParseMembers(Quote(m.key) + (":" + value))
         == if after[0] == '}' then Done([m], after[1..])
            else match ParseMembers(after[1..])
                 case Fail => Fail
                 case Done(ms, end) => Done([m] + ms, end)
  {
    var colon := ":" + value;
    var s := Quote(m.key) + colon;
    KeyRead(m.key, colon);
    assert SkipSpace(s) == s;
    assert SkipSpace(colon) == colon && colon[0] == ':' && colon[1..] == value;
    assert SkipSpace(after) == after;
  }

  lemma KeyRead(key: string, tail: string)
    ensures var s := Quote(key) + tail;
            s != "" && s[0] == '"' && ParseString(s[1..]) == Done(key, tail)
  {
    var s := Quote(key) + tail;
    assert s[0] == '"' && s[1..] == Escape(key) + "\"" + tail;
    StringRead(key, tail);
  }

  /** Reading a written document returns it, entry order included. */
  lemma LoadsWrite(v: Json)
    requires WellFormed(v)
    ensures Loads(Write(v)) == Some(v)
  {
    ValueRead(v, "");
    assert Write(v) + "" == Write(v);
  }

  // ---------------------------------------------------------------------------------------
  // The canonical text identifies a document up to the order of its dictionary entries
  // ---------------------------------------------------------------------------------------

  /** The same document: equal, except that dictionaries may list their entries in another order. */
  ghost predicate SameDocument(v: Json, w: Json)
    decreases v
  {
    match v
    case Arr(items) =>
      w.Arr? && |w.items| == |items| && forall i | 0 <= i < |items| :: SameDocument(items[i], w.items[i])
    case Obj(members) =>
      w.Obj? && |w.members| == |members|
      && forall m | m in members :: exists k | k in w.members :: k.key == m.key && SameDocument(m.value, k.value)
    case _ => v == w
  }

  lemma CanonicalDistinct(members: seq<Member>)
    requires DistinctKeysOf(members)
    ensures DistinctKeys(CanonicalMembers(members), KeyOf)
    ensures DistinctKeysOf(SortOn(CanonicalMembers(members), KeyOf))
    ensures StrictlySorted(SortOn(CanonicalMembers(members), KeyOf), KeyOf)
    ensures |SortOn(CanonicalMembers(members), KeyOf)| == |members|
  {
    var c := CanonicalMembers(members);
    SortSorts(c, KeyOf);
    SortMembers(c, KeyOf);
    SortedDistinct(SortOn(c, KeyOf), KeyOf);
    forall i, j | 0 <= i < j < |members|
      ensures SortOn(c, KeyOf)[i].key != SortOn(c, KeyOf)[j].key
    {
      assert KeyOf(SortOn(c, KeyOf)[i]) != KeyOf(SortOn(c, KeyOf)[j]);
    }
  }

  /** A member of the canonical dictionary comes from a member of the original one, and conversely. */
  lemma CanonicalMembership(members: seq<Member>, c: Member)
    ensures c in SortOn(CanonicalMembers(members), KeyOf)
       <==> exists m | m in members :: c == Member(m.key, Canonical(m.value))
  {
    var cs := CanonicalMembers(members);
    SortMembers(cs, KeyOf);
    if c in cs {
      var i :| 0 <= i < |cs| && cs[i] == c;
      assert members[i] in members;
    }
    if m :| m in members && c == Member(m.key, Canonical(m.value)) {
      var i :| 0 <= i < |members| && members[i] == m;
      assert cs[i] == c;
    }
  }

  lemma {:induction false} CanonicalWellFormed(v: Json)
    requires WellFormed(v)
    ensures WellFormed(Canonical(v))
  {
    match v
    case Arr(items) =>
      forall x | x in CanonicalItems(items) ensures WellFormed(x) {
        var i :| 0 <= i < |items| && CanonicalItems(items)[i] == x;
        CanonicalWellFormed(items[i]);
      }
    case Obj(members) =>
      CanonicalDistinct(members);
      forall c | c in SortOn(CanonicalMembers(members), KeyOf) ensures WellFormed(c.value) {
        CanonicalMembership(members, c);
        var m :| m in members && c == Member(m.key, Canonical(m.value));
        CanonicalWellFormed(m.value);
      }
    case _ =>
  }

  lemma {:induction false} CanonicalIdempotent(v: Json)
    requires WellFormed(v)
    ensures Canonical(Canonical(v)) == Canonical(v)
  {
    match v
    case Arr(items) =>
      forall i | 0 <= i < |items| ensures Canonical(CanonicalItems(items)[i]) == CanonicalItems(items)[i] {
        CanonicalIdempotent(items[i]);
      }
      assert CanonicalItems(CanonicalItems(items)) == CanonicalItems(items);
    case Obj(members) =>
      var sorted := SortOn(CanonicalMembers(members), KeyOf);
      CanonicalDistinct(members);
      forall i | 0 <= i < |sorted| ensures CanonicalMembers(sorted)[i] == sorted[i] {
        assert sorted[i] in sorted;
        CanonicalMembership(members, sorted[i]);
        var m :| m in members && sorted[i] == Member(m.key, Canonical(m.value));
        CanonicalIdempotent(m.value);
      }
      assert CanonicalMembers(sorted) == sorted;
      SortFixpoint(sorted, KeyOf);
    case _ =>
  }

  function Keys(members: seq<Member>): set<string> { set m | m in members :: m.key }

  lemma {:induction false} KeysCount(members: seq<Member>)
    requires DistinctKeysOf(members)
    ensures |Keys(members)| == |members|
  {
    if members != [] {
      var rest := members[1..];
      KeysCount(rest);
      assert members == [members[0]] + rest;
      assert Keys(members) == {members[0].key} + Keys(rest);
      forall i | 0 <= i < |rest| ensures rest[i].key != members[0].key {
        assert members[i + 1] == rest[i];
      }
    }
  }

  lemma SubsetOfEqualSize(a: set<string>, b: set<string>)
    requires a <= b && |a| == |b|
    ensures a == b
  {
    assert b == a + (b - a);
    assert |b - a| == 0;
  }

  /** Equally many distinct keys, each of the first also in the second: each of the second also in the first. */
  lemma SameKeys(a: seq<Member>, b: seq<Member>)
    requires DistinctKeysOf(a) && DistinctKeysOf(b) && |a| == |b|
    requires forall m | m in a :: m.key in Keys(b)
    ensures Keys(a) == Keys(b)
  {
    KeysCount(a);
    KeysCount(b);
    SubsetOfEqualSize(Keys(a), Keys(b));
  }

  lemma {:induction false} SameThenCanonical(v: Json, w: Json)
    requires WellFormed(v) && WellFormed(w) && SameDocument(v, w)
    ensures Canonical(v) == Canonical(w)
  {
    match v
    case Arr(items) =>
      forall i | 0 <= i < |items| ensures CanonicalItems(items)[i] == CanonicalItems(w.items)[i] {
        SameThenCanonical(items[i], w.items[i]);
      }
      assert CanonicalItems(items) == CanonicalItems(w.items);
    case Obj(members) =>
      var a, b := SortOn(CanonicalMembers(members), KeyOf), SortOn(CanonicalMembers(w.members), KeyOf);
      CanonicalDistinct(members);
      CanonicalDistinct(w.members);
      SameKeys(members, w.members);
      forall c ensures c in a <==> c in b {
        CanonicalMembership(members, c);
        CanonicalMembership(w.members, c);
        if c in a {
          var m :| m in members && c == Member(m.key, Canonical(m.value));
          var k :| k in w.members && k.key == m.key && SameDocument(m.value, k.value);
          SameThenCanonical(m.value, k.value);
        }
        if c in b {
          var k :| k in w.members && c == Member(k.key, Canonical(k.value));
          assert k.key in Keys(members);
          var m :| m in members && m.key == k.key;
          var k' :| k' in w.members && k'.key == m.key && SameDocument(m.value, k'.value);
          KeyDetermines(w.members, k, k');
          SameThenCanonical(m.value, k.value);
        }
      }
      SortedUnique(a, b, KeyOf);
    case _ =>
  }

  lemma KeyDetermines(members: seq<Member>, k: Member, m: Member)
    requires DistinctKeysOf(members) && k in members && m in members && k.key == m.key
    ensures k == m
  {
  }

  lemma {:induction false} CanonicalThenSame(v: Json, w: Json)
    requires WellFormed(v) && WellFormed(w) && Canonical(v) == Canonical(w)
    ensures SameDocument(v, w)
  {
    match v
    case Arr(items) =>
      forall i | 0 <= i < |items| ensures SameDocument(items[i], w.items[i]) {
        assert CanonicalItems(items)[i] == CanonicalItems(w.items)[i];
        CanonicalThenSame(items[i], w.items[i]);
      }
    case Obj(members) =>
      CanonicalDistinct(members);
      CanonicalDistinct(w.members);
      forall m | m in members
        ensures exists k | k in w.members :: k.key == m.key && SameDocument(m.value, k.value)
      {
        var c := Member(m.key, Canonical(m.value));
        CanonicalMembership(members, c);
        CanonicalMembership(w.members, c);
        var k :| k in w.members && c == Member(k.key, Canonical(k.value));
        CanonicalThenSame(m.value, k.value);
      }
    case _ =>
  }

  /** Storing the canonical text and reading it back loses nothing but the entry order, and the text is a fixpoint. */
  lemma {:induction false} CanonicalRoundTrip(v: Json)
    requires WellFormed(v)
    ensures Loads(CanonicalJson(v)) == Some(Canonical(v))
    ensures WellFormed(Canonical(v)) && SameDocument(Canonical(v), v)
    ensures CanonicalJson(Canonical(v)) == CanonicalJson(v)
  {
    CanonicalWellFormed(v);
    CanonicalIdempotent(v);
    LoadsWrite(Canonical(v));
    CanonicalThenSame(Canonical(v), v);
  }

  /** Two documents have one canonical text exactly when they are the same document. */
  lemma CanonicalTextIdentifies(v: Json, w: Json)
    requires WellFormed(v) && WellFormed(w)
    ensures CanonicalJson(v) == CanonicalJson(w) <==> SameDocument(v, w)
  {
    if SameDocument(v, w) {
      SameThenCanonical(v, w);
    }
    if CanonicalJson(v) == CanonicalJson(w) {
      CanonicalRoundTrip(v);
      CanonicalRoundTrip(w);
      CanonicalThenSame(v, w);
    }
  }

  // ---------------------------------------------------------------------------------------
  // Whatever the reader returns is well formed
  // ---------------------------------------------------------------------------------------

  lemma {:induction false} PutKeepsDistinct(members: seq<Member>, m: Member)
    requires DistinctKeysOf(members)
    ensures DistinctKeysOf(PutMember(members, m))
    ensures forall x | x in PutMember(members, m) :: x == m || x in members
    ensures forall x | x in PutMember(members, m) :: x.key == m.key || x.key in Keys(members)
  {
    if members != [] && members[0].key != m.key {
      PutKeepsDistinct(members[1..], m);
      assert members == [members[0]] + members[1..];
      var rest := PutMember(members[1..], m);
      forall j | 0 <= j < |rest| ensures members[0].key != rest[j].key {
        assert rest[j] in rest;
        if rest[j] != m {
          var i :| 0 <= i < |members[1..]| && members[1..][i] == rest[j];
          assert members[i + 1] == rest[j];
        }
      }
    }
  }

  lemma {:induction false} FromPairsWellFormed(pairs: seq<Member>)
    requires forall m | m in pairs :: WellFormed(m.value)
    ensures WellFormed(Obj(FromPairs(pairs)))
  {
    if pairs != [] {
      var n := |pairs| - 1;
      FromPairsWellFormed(pairs[..n]);
      PutKeepsDistinct(FromPairs(pairs[..n]), pairs[n]);
    }
  }

  lemma {:induction false} WordLengthIsWord(s: string)
    ensures IsWord(s[..WordLength(s)])
  {
    if s != "" && IsWordChar(s[0]) {
      WordLengthIsWord(s[1..]);
      assert s[..WordLength(s)] == [s[0]] + s[1..][..WordLength(s[1..])];
    }
  }

  lemma {:induction false} ParseWellFormed(s: string)
    ensures ParseValue(s).Done? ==> WellFormed(ParseValue(s).value)
    decreases |s|, 0
  {
    var t := SkipSpace(s);
    if t != "" && ParseValue(s).Done? {
      if t[0] == '[' {
        var u := SkipSpace(t[1..]);
        ParseItemsWellFormed(u);
      } else if t[0] == '{' {
        var u := SkipSpace(t[1..]);
        if u == "" || u[0] != '}' {
          ParseMembersWellFormed(u);
          FromPairsWellFormed(ParseMembers(u).value);
        }
      } else if t[0] != '"' {
        WordLengthIsWord(t);
      }
    }
  }

  lemma {:induction false} ParseItemsWellFormed(s: string)
    ensures ParseItems(s).Done? ==> forall x | x in ParseItems(s).value :: WellFormed(x)
    decreases |s|, 1
  {
    if ParseItems(s).Done? {
      ParseWellFormed(s);
      var t := SkipSpace(ParseValue(s).rest);
      if t[0] == ',' {
        ParseItemsWellFormed(t[1..]);
      }
    }
  }

  lemma {:induction false} ParseMembersWellFormed(s: string)
    ensures ParseMembers(s).Done? ==> forall m | m in ParseMembers(s).value :: WellFormed(m.value)
    decreases |s|, 1
  {
    if ParseMembers(s).Done? {
      var u := SkipSpace(ParseString(SkipSpace(s)[1..]).rest);
      ParseWellFormed(u[1..]);
      var w := SkipSpace(ParseValue(u[1..]).rest);
      if w[0] == ',' {
        ParseMembersWellFormed(w[1..]);
      }
    }
  }

  lemma LoadsWellFormed(s: string)
    ensures Loads(s).Some? ==> WellFormed(Loads(s).value)
  {
    ParseWellFormed(s);
  }

  /** `members.get(key)` */
  function Get(members: seq<Member>, key: string): Option<Json> {
    if members == [] then None
    else if members[0].key == key then Some(members[0].value)
    else Get(members[1..], key)
  }

  lemma {:induction false} GetMember(members: seq<Member>, key: string, v: Json)
    requires DistinctKeysOf(members)
    ensures Get(members, key) == Some(v) <==> Member(key, v) in members
    ensures Get(members, key) == None <==> key !in Keys(members)
  {
    if members != [] {
      assert members == [members[0]] + members[1..];
      GetMember(members[1..], key, v);
      if Member(key, v) in members && members[0].key == key {
        KeyDetermines(members, Member(key, v), members[0]);
      }
    }
  }
}
