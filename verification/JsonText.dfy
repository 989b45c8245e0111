/** What the canonical text is, character by character, and what the reader makes of texts written otherwise. */
module JsonText {
  import opened Order
  import opened Json

  // ---------------------------------------------------------------------------------------
  // Texts and keys
  // ---------------------------------------------------------------------------------------

  /** Written as it is. */
  predicate Plain(c: char) { c != '"' && c != '\\' && c as int >= 32 }

  lemma {:induction false} EscapeConcat(a: string, b: string)
    ensures Escape(a + b) == Escape(a) + Escape(b)
  {
    if a == "" {
      assert a + b == b;
    } else {
      assert (a + b)[1..] == a[1..] + b;
      EscapeConcat(a[1..], b);
    }
  }

  lemma OneEscaped(c: char)
    ensures Escape([c]) == EscapeChar(c)
  {
    assert [c][1..] == "";
  }

  /** A text without a quote, a backslash or a control character stands between its quotes as it is: a slash, a space
      and everything beyond ASCII included. */
  lemma {:induction false} PlainQuoted(s: string)
    requires forall i | 0 <= i < |s| :: Plain(s[i])
    ensures Quote(s) == "\"" + s + "\""
  {
    if s != "" {
      PlainQuoted(s[1..]);
      assert Escape(s[1..]) == Quote(s[1..])[1..|Quote(s[1..])| - 1] == s[1..];
      assert s == [s[0]] + s[1..];
    }
  }

  /** Everything else: seven escapes of two characters, and `\u00` with two lower-case hexadecimal digits. */
  lemma Escapes(c: char)
    ensures Escape("\"") == ['\\', '"'] && Escape("\\") == ['\\', '\\']
    ensures Escape("\n") == ['\\', 'n'] && Escape("\r") == ['\\', 'r'] && Escape("\t") == ['\\', 't']
    ensures Escape([8 as char]) == ['\\', 'b'] && Escape([12 as char]) == ['\\', 'f']
    ensures c as int < 32 && c as int !in {8, 9, 10, 12, 13} ==>
              Escape([c]) == ['\\', 'u', '0', '0', "01"[c as int / 16], "0123456789abcdef"[c as int % 16]]
    ensures Plain(c) ==> Escape([c]) == [c]
  {
    OneEscaped('"');
    OneEscaped('\\');
    OneEscaped('\n');
    OneEscaped('\r');
    OneEscaped('\t');
    OneEscaped(8 as char);
    OneEscaped(12 as char);
    OneEscaped(c);
    hide Escape;
  }

  // ---------------------------------------------------------------------------------------
  // Documents
  // ---------------------------------------------------------------------------------------

  /** `",".join(parts)` */
  function Joined(parts: seq<string>): string {
    if parts == [] then "" else if |parts| == 1 then parts[0] else parts[0] + "," + Joined(parts[1..])
  }

  function Texts(items: seq<Json>): (r: seq<string>)
    ensures |r| == |items| && forall i | 0 <= i < |items| :: r[i] == Write(items[i])
  {
    if items == [] then [] else [Write(items[0])] + Texts(items[1..])
  }

  function Pairs(members: seq<Member>): (r: seq<string>)
    ensures |r| == |members|
    ensures forall i | 0 <= i < |members| :: r[i] == Quote(members[i].key) + ":" + Write(members[i].value)
  {
    if members == [] then [] else [Quote(members[0].key) + ":" + Write(members[0].value)] + Pairs(members[1..])
  }

  lemma {:induction false} ItemsJoined(items: seq<Json>)
    requires items != []
    ensures WriteItems(items) == Joined(Texts(items)) + "]"
  {
    if |items| > 1 {
      ItemsJoined(items[1..]);
      assert Texts(items)[1..] == Texts(items[1..]);
    }
  }

  lemma {:induction false} MembersJoined(members: seq<Member>)
    requires members != []
    ensures WriteMembers(members) == Joined(Pairs(members)) + "}"
  {
    if |members| > 1 {
      MembersJoined(members[1..]);
      assert Pairs(members)[1..] == Pairs(members[1..]);
      hide Quote, Write;
    }
  }

  /** The text of a document: its parts' texts, joined by commas, keys and values by colons. */
  lemma DocumentText(v: Json)
    ensures match v
            case Null => Write(v) == "null"
            case Bool(b) => Write(v) == if b then "true" else "false"
            case Num(token) => Write(v) == token
            case Str(s) => Write(v) == Quote(s)
            case Arr(items) => Write(v) == "[" + Joined(Texts(items)) + "]"
            case Obj(members) => Write(v) == "{" + Joined(Pairs(members)) + "}"
  {
    match v
    case Arr(items) =>
      if items != [] {
        ItemsJoined(items);
      }
    case Obj(members) =>
      if members != [] {
        MembersJoined(members);
      }
    case _ =>
  }

  /** At every depth the keys come in strictly increasing order. */
  predicate KeysSorted(v: Json) {
    match v
    case Arr(items) => forall x | x in items :: KeysSorted(x)
    case Obj(members) =>
      && (forall i, j | 0 <= i < j < |members| :: Before(members[i].key, members[j].key))
      && (forall m | m in members :: KeysSorted(m.value))
    case _ => true
  }

  lemma {:induction false} CanonicalSorted(v: Json)
    requires WellFormed(v)
    ensures KeysSorted(Canonical(v))
  {
    match v
    case Arr(items) =>
      var cs := CanonicalItems(items);
      forall x | x in cs ensures KeysSorted(x) {
        var i :| 0 <= i < |cs| && cs[i] == x;
        CanonicalSorted(items[i]);
      }
    case Obj(members) =>
      var cs := SortOn(CanonicalMembers(members), KeyOf);
      CanonicalDistinct(members);
      forall m | m in cs ensures KeysSorted(m.value) {
        CanonicalMembership(members, m);
        var k :| k in members && m == Member(k.key, Canonical(k.value));
        CanonicalSorted(k.value);
      }
      forall i, j | 0 <= i < j < |cs| ensures Before(cs[i].key, cs[j].key) {
        assert Before(KeyOf(cs[i]), KeyOf(cs[j]));
      }
    case _ =>
  }

  // ---------------------------------------------------------------------------------------
  // No space outside texts
  // ---------------------------------------------------------------------------------------

  /** What stands outside string literals. */
  function Outside(s: string, inside: bool): string {
    if s == "" then ""
    else if !inside then if s[0] == '"' then Outside(s[1..], true) else [s[0]] + Outside(s[1..], false)
    else if s[0] == '"' then Outside(s[1..], false)
    else if s[0] == '\\' && |s| > 1 then Outside(s[2..], true)
    else Outside(s[1..], true)
  }

  ghost predicate Tight(s: string) { forall c | c in Outside(s, false) :: !IsSpace(c) }

  lemma PastOne(c: char, rest: string)
    requires c != '"' && c != '\\'
    ensures Outside([c] + rest, true) == Outside(rest, true)
  {
    assert ([c] + rest)[1..] == rest;
  }

  lemma PastTwo(c: char, rest: string)
    ensures Outside("\\" + ([c] + rest), true) == Outside(rest, true)
  {
    assert ("\\" + ([c] + rest))[2..] == rest;
  }

  lemma PastEscape(c: char, rest: string)
    ensures Outside(EscapeChar(c) + rest, true) == Outside(rest, true)
  {
    var e := EscapeChar(c);
    if |e| == 1 {
      PastOne(c, rest);
    } else if |e| == 2 {
      assert e + rest == "\\" + ([e[1]] + rest);
      PastTwo(e[1], rest);
    } else {
      hide Outside;
      assert e[2] == '0' && e[3] == '0' && e[4] != '"' && e[4] != '\\' && e[5] != '"' && e[5] != '\\';
      assert e + rest == "\\" + ([e[1]] + ([e[2]] + ([e[3]] + ([e[4]] + ([e[5]] + rest)))));
      PastTwo(e[1], [e[2]] + ([e[3]] + ([e[4]] + ([e[5]] + rest))));
      PastOne(e[2], [e[3]] + ([e[4]] + ([e[5]] + rest)));
      PastOne(e[3], [e[4]] + ([e[5]] + rest));
      PastOne(e[4], [e[5]] + rest);
      PastOne(e[5], rest);
    }
  }

  lemma {:induction false} PastString(s: string, rest: string)
    ensures Outside(Escape(s) + "\"" + rest, true) == Outside(rest, false)
  {
    if s == "" {
      assert ("" + "\"" + rest)[1..] == rest;
    } else {
      assert Escape(s) + "\"" + rest == EscapeChar(s[0]) + (Escape(s[1..]) + "\"" + rest);
      PastEscape(s[0], Escape(s[1..]) + "\"" + rest);
      PastString(s[1..], rest);
    }
  }

  lemma QuoteTight(s: string, rest: string)
    requires Tight(rest)
    ensures Tight(Quote(s) + rest)
  {
    var t := Quote(s) + rest;
    assert t == "\"" + (Escape(s) + "\"" + rest) && t[1..] == Escape(s) + "\"" + rest;
    PastString(s, rest);
    hide Escape;
  }

  lemma OneTight(c: char, rest: string)
    requires c != '"' && !IsSpace(c) && Tight(rest)
    ensures Tight([c] + rest)
  {
    assert ([c] + rest)[1..] == rest;
  }

  lemma {:induction false} WordTight(w: string, rest: string)
    requires IsWord(w) && Tight(rest)
    ensures Tight(w + rest)
  {
    if w == "" {
      assert w + rest == rest;
    } else {
      assert w + rest == [w[0]] + (w[1..] + rest);
      WordTight(w[1..], rest);
      hide Tight;
      OneTight(w[0], w[1..] + rest);
    }
  }

  lemma {:induction false} WriteTight(v: Json, rest: string)
    requires WellFormed(v) && Tight(rest)
    ensures Tight(Write(v) + rest)
    decreases v, 1
  {
    hide Tight, Quote;
    match v
    case Null => WordTight("null", rest);
    case Bool(b) => WordTight(if b then "true" else "false", rest);
    case Num(token) => WordTight(token, rest);
    case Str(s) => QuoteTight(s, rest);
    case Arr(items) =>
      if items == [] {
        OneTight(']', rest);
        OneTight('[', "]" + rest);
        assert "[" + "]" + rest == "[" + ("]" + rest);
      } else {
        ItemsTight(v, items, rest);
        OneTight('[', WriteItems(items) + rest);
        assert Write(v) + rest == "[" + (WriteItems(items) + rest);
      }
    case Obj(members) =>
      if members == [] {
        OneTight('}', rest);
        OneTight('{', "}" + rest);
        assert "{" + "}" + rest == "{" + ("}" + rest);
      } else {
        MembersTight(v, members, rest);
        OneTight('{', WriteMembers(members) + rest);
        assert Write(v) + rest == "{" + (WriteMembers(members) + rest);
      }
  }

  lemma {:induction false} ItemsTight(whole: Json, items: seq<Json>, rest: string)
    requires items != [] && (forall x | x in items :: x < whole && WellFormed(x)) && Tight(rest)
    ensures Tight(WriteItems(items) + rest)
    decreases whole, 0, |items|
  {
    assert items[0] in items && forall x | x in items[1..] :: x in items;
    hide Tight, Write;
    var tail := if |items| == 1 then "]" else "," + WriteItems(items[1..]);
    if |items| == 1 {
      OneTight(']', rest);
    } else {
      ItemsTight(whole, items[1..], rest);
      OneTight(',', WriteItems(items[1..]) + rest);
      assert tail + rest == "," + (WriteItems(items[1..]) + rest);
    }
    WriteTight(items[0], tail + rest);
    assert WriteItems(items) + rest == Write(items[0]) + (tail + rest);
  }

  lemma {:induction false} MembersTight(whole: Json, members: seq<Member>, rest: string)
    requires members != [] && (forall m | m in members :: m.value < whole && WellFormed(m.value)) && Tight(rest)
    ensures Tight(WriteMembers(members) + rest)
    decreases whole, 0, |members|
  {
    assert members[0] in members && forall m | m in members[1..] :: m in members;
    hide Tight, Write, Quote;
    var tail := if |members| == 1 then "}" else "," + WriteMembers(members[1..]);
    if |members| == 1 {
      OneTight('}', rest);
    } else {
      MembersTight(whole, members[1..], rest);
      OneTight(',', WriteMembers(members[1..]) + rest);
      assert tail + rest == "," + (WriteMembers(members[1..]) + rest);
    }
    WriteTight(members[0].value, tail + rest);
    MemberTight(members[0], tail + rest);
    FirstMember(members, tail, rest);
  }

  lemma MemberTight(m: Member, rest: string)
    requires Tight(Write(m.value) + rest)
    ensures Tight(Quote(m.key) + (":" + (Write(m.value) + rest)))
  {
    hide Tight, Write, Quote;
    OneTight(':', Write(m.value) + rest);
    QuoteTight(m.key, ":" + (Write(m.value) + rest));
  }

  lemma FirstMember(members: seq<Member>, tail: string, rest: string)
    requires members != [] && tail == if |members| == 1 then "}" else "," + WriteMembers(members[1..])
    ensures WriteMembers(members) + rest
         == Quote(members[0].key) + (":" + (Write(members[0].value) + (tail + rest)))
  {
    Regroup(Quote(members[0].key), ":", Write(members[0].value), tail, rest);
    hide Write, Quote;
  }

  lemma Regroup(a: string, b: string, c: string, d: string, e: string)
    ensures a + b + c + d + e == a + (b + (c + (d + e)))
  {
  }

  /** `json.dumps(payload, sort_keys=True, separators=(",", ":"))`: the text of the same document, keys in order at every
      depth, and no space outside its texts. */
  lemma CanonicalText(v: Json)
    requires WellFormed(v)
    ensures SameDocument(Canonical(v), v) && KeysSorted(Canonical(v))
    ensures CanonicalJson(v) == Write(Canonical(v)) && Tight(CanonicalJson(v))
  {
    CanonicalRoundTrip(v);
    CanonicalSorted(v);
    WriteTight(Canonical(v), "");
    assert Write(Canonical(v)) + "" == Write(Canonical(v));
    hide Write, Tight, SameDocument, WellFormed;
  }

  // ---------------------------------------------------------------------------------------
  // Texts written otherwise
  // ---------------------------------------------------------------------------------------

  /** The reader knows the eight escapes of two characters, and four hexadecimal digits of either case. */
  lemma EscapesRead(rest: string, d: int)
    ensures ParseEscape("\"" + rest) == Done('"', rest) && ParseEscape("\\" + rest) == Done('\\', rest)
    ensures ParseEscape("/" + rest) == Done('/', rest)
    ensures ParseEscape("b" + rest) == Done(8 as char, rest) && ParseEscape("f" + rest) == Done(12 as char, rest)
    ensures ParseEscape("n" + rest) == Done('\n', rest) && ParseEscape("r" + rest) == Done('\r', rest)
    ensures ParseEscape("t" + rest) == Done('\t', rest)
    ensures 0 <= d < 16 ==> HexValue("0123456789abcdef"[d]) == HexValue("0123456789ABCDEF"[d]) == Some(d)
  {
    assert ("\"" + rest)[1..] == rest && ("\\" + rest)[1..] == rest && ("/" + rest)[1..] == rest;
    assert ("b" + rest)[1..] == rest && ("f" + rest)[1..] == rest && ("n" + rest)[1..] == rest;
    assert ("r" + rest)[1..] == rest && ("t" + rest)[1..] == rest;
  }

  lemma UnicodeRead(a: char, b: char, c: char, d: char, rest: string)
    requires HexValue(a).Some? && HexValue(b).Some? && HexValue(c).Some? && HexValue(d).Some?
    ensures var code := ((HexValue(a).value * 16 + HexValue(b).value) * 16 + HexValue(c).value) * 16 + HexValue(d).value;
            ParseEscape("u" + ([a, b, c, d] + rest))
            == if 0 <= code < 0xD800 || 0xE000 <= code < 0x10000 then Done(code as char, rest) else Fail
  {
    hide HexValue;
    var s := [a, b, c, d] + rest;
    assert ("u" + s)[0] == 'u' && ("u" + s)[1..] == s && s[4..] == rest;
    assert s[0] == a && s[1] == b && s[2] == c && s[3] == d;
    assert ParseEscape("u" + s) == UnicodeEscape(s);
    hide ParseEscape;
  }

  /** White space in front of a value is skipped. */
  lemma {:induction false} SpaceSkipped(space: string, s: string)
    requires forall i | 0 <= i < |space| :: space[i] in {' ', '\t', '\n', '\r'}
    ensures ParseValue(space + s) == ParseValue(s)
  {
    if space == "" {
      assert space + s == s;
    } else {
      SpaceSkipped(space[1..], s);
      assert (space + s)[1..] == space[1..] + s;
    }
  }

  /** Of several entries under one key the last counts. */
  lemma {:induction false} LastValueCounts(pairs: seq<Member>, m: Member, others: seq<Member>)
    requires forall p | p in others :: p.key != m.key
    ensures Get(FromPairs(pairs + [m] + others), m.key) == Some(m.value)
    decreases |others|
  {
    var all := pairs + [m] + others;
    if others == [] {
      assert all == pairs + [m] && all[..|all| - 1] == pairs;
      PutFound(FromPairs(pairs), m, m.key);
    } else {
      var front, last := others[..|others| - 1], others[|others| - 1];
      assert all[..|all| - 1] == pairs + [m] + front && all[|all| - 1] == last && last in others;
      assert forall p | p in front :: p in others;
      LastValueCounts(pairs, m, front);
      PutFound(FromPairs(pairs + [m] + front), last, m.key);
    }
  }

  lemma {:induction false} PutFound(members: seq<Member>, m: Member, key: string)
    ensures Get(PutMember(members, m), key) == if key == m.key then Some(m.value) else Get(members, key)
  {
    if members != [] && members[0].key != m.key {
      PutFound(members[1..], m, key);
    }
  }

  // --- numbers ---------------------------------------------------------------------------

  predicate Digits(s: string) { s != "" && forall i | 0 <= i < |s| :: '0' <= s[i] <= '9' }

  predicate Whole(s: string) { s == "0" || (Digits(s) && s[0] != '0') }

  predicate Fraction(s: string) { s == "" || (s[0] == '.' && Digits(s[1..])) }

  predicate Exponent(s: string) {
    s == "" || ((s[0] == 'e' || s[0] == 'E')
                && (Digits(s[1..]) || (|s| > 1 && (s[1] == '+' || s[1] == '-') && Digits(s[2..]))))
  }

  /** RFC 8259 section 6: [ minus ] int [ frac ] [ exp ] */
  ghost predicate Decimal(t: string) {
    exists sign, whole, fraction, exponent :: DecimalOf(t, sign, whole, fraction, exponent)
  }

  predicate DecimalOf(t: string, sign: string, whole: string, fraction: string, exponent: string) {
    && t == sign + whole + fraction + exponent && (sign == "" || sign == "-")
    && Whole(whole) && Fraction(fraction) && Exponent(exponent)
  }

  lemma {:induction false} LeadingDigits(s: string) returns (ds: string)
    ensures s == ds + AfterDigits(s) && (ds == "" || Digits(ds))
    ensures AfterDigits(s) == "" || !IsDigit(AfterDigits(s)[0])
    ensures s != "" && IsDigit(s[0]) ==> ds != "" && ds[0] == s[0]
  {
    if s != "" && IsDigit(s[0]) {
      ds := LeadingDigits(s[1..]);
      ds := [s[0]] + ds;
    } else {
      ds := "";
    }
  }

  lemma {:induction false} DigitsSkipped(ds: string, rest: string)
    requires ds == "" || Digits(ds)
    requires rest == "" || !IsDigit(rest[0])
    ensures AfterDigits(ds + rest) == rest
  {
    if ds == "" {
      assert ds + rest == rest;
    } else {
      assert (ds + rest)[1..] == ds[1..] + rest;
      DigitsSkipped(ds[1..], rest);
    }
  }

  lemma AllDigits(s: string)
    ensures s != "" && AfterDigits(s) == "" <==> Digits(s)
  {
    var ds := LeadingDigits(s);
    if Digits(s) {
      DigitsSkipped(s, "");
      assert s + "" == s;
    } else if AfterDigits(s) == "" {
      assert ds + "" == ds;
    }
  }

  lemma ExponentIff(s: string)
    ensures IsExponentTail(s) <==> Exponent(s)
  {
    if s != "" {
      AllDigits(s[1..]);
      if |s| > 1 {
        AllDigits(s[2..]);
      }
      hide AfterDigits;
    }
  }

  lemma FractionIff(s: string)
    ensures IsFractionTail(s) <==> exists fraction, exponent :: s == fraction + exponent && Fraction(fraction) && Exponent(exponent)
  {
    ExponentIff(s);
    hide IsExponentTail;
    if Exponent(s) {
      assert s == "" + s;
    } else if IsFractionTail(s) {
      var ds := LeadingDigits(s[1..]);
      ExponentIff(AfterDigits(s[1..]));
      var fraction := "." + ds;
      assert fraction[1..] == ds && s == fraction + AfterDigits(s[1..]);
    }
    forall fraction, exponent | s == fraction + exponent && Fraction(fraction) && Exponent(exponent)
      ensures IsFractionTail(s)
    {
      if fraction == "" {
        assert s == exponent;
      } else {
        assert s[1..] == fraction[1..] + exponent && s[1] == fraction[1..][0];
        DigitsSkipped(fraction[1..], exponent);
        ExponentIff(exponent);
      }
    }
  }

  ghost predicate Unsigned(t: string) { exists whole, fraction, exponent :: DecimalOf(t, "", whole, fraction, exponent) }

  predicate ReadsUnsigned(t: string) {
    t != "" && IsDigit(t[0]) && IsFractionTail(if t[0] == '0' then t[1..] else AfterDigits(t))
  }

  lemma ReadIsUnsigned(t: string)
    requires ReadsUnsigned(t)
    ensures Unsigned(t)
  {
    var tail := if t[0] == '0' then t[1..] else AfterDigits(t);
    var whole := WholeOf(t);
    hide IsFractionTail, Fraction, Exponent, AfterDigits, Whole;
    FractionIff(tail);
    var fraction, exponent :| tail == fraction + exponent && Fraction(fraction) && Exponent(exponent);
    hide ReadsUnsigned, Unsigned;
    Unsigned3(t, whole, fraction, exponent);
  }

  lemma Grouped(a: string, b: string, c: string)
    ensures "" + a + b + c == a + (b + c)
  {
  }

  lemma Unsigned3(t: string, whole: string, fraction: string, exponent: string)
    requires t == whole + (fraction + exponent) && Whole(whole) && Fraction(fraction) && Exponent(exponent)
    ensures Unsigned(t)
  {
    hide Whole, Fraction, Exponent;
    Grouped(whole, fraction, exponent);
    assert DecimalOf(t, "", whole, fraction, exponent);
  }

  lemma WholeOf(t: string) returns (whole: string)
    requires t != "" && IsDigit(t[0])
    ensures Whole(whole) && t == whole + if t[0] == '0' then t[1..] else AfterDigits(t)
  {
    whole := LeadingDigits(t);
    if t[0] == '0' {
      whole := "0";
    }
  }

  lemma UnsignedIsRead(t: string)
    requires Unsigned(t)
    ensures ReadsUnsigned(t)
  {
    hide IsFractionTail, DecimalOf;
    var whole, fraction, exponent :| DecimalOf(t, "", whole, fraction, exponent);
    WholeTail(t, whole, fraction, exponent);
    FractionIff(fraction + exponent);
  }

  lemma WholeTail(t: string, whole: string, fraction: string, exponent: string)
    requires DecimalOf(t, "", whole, fraction, exponent)
    ensures t != "" && IsDigit(t[0]) && Fraction(fraction) && Exponent(exponent)
    ensures (if t[0] == '0' then t[1..] else AfterDigits(t)) == fraction + exponent
  {
    var tail := fraction + exponent;
    assert t == whole + tail && t[0] == whole[0];
    if whole == "0" {
      assert t[1..] == tail;
    } else {
      assert tail == "" || tail[0] == if fraction != "" then fraction[0] else exponent[0];
      DigitsSkipped(whole, tail);
    }
  }

  /** The tokens the reader takes for numbers are those of the grammar, and Python's three. */
  lemma NumberGrammar(t: string)
    ensures IsNumber(t) <==> Decimal(t) || t == "NaN" || t == "Infinity" || t == "-Infinity"
  {
    var u := if t != "" && t[0] == '-' then t[1..] else t;
    assert IsNumber(t) <==> ReadsUnsigned(u) || t == "NaN" || t == "Infinity" || t == "-Infinity";
    hide ReadsUnsigned, IsNumber, DecimalOf;
    if ReadsUnsigned(u) {
      ReadIsUnsigned(u);
      var whole, fraction, exponent :| DecimalOf(u, "", whole, fraction, exponent);
      SignAdded(t, u, whole, fraction, exponent);
    }
    forall sign, whole, fraction, exponent | DecimalOf(t, sign, whole, fraction, exponent) ensures ReadsUnsigned(u) {
      SignTaken(t, sign, whole, fraction, exponent);
      UnsignedIsRead(u);
    }
  }

  lemma SignAdded(t: string, u: string, whole: string, fraction: string, exponent: string)
    requires u == if t != "" && t[0] == '-' then t[1..] else t
    requires DecimalOf(u, "", whole, fraction, exponent)
    ensures Decimal(t)
  {
    var sign := if t != "" && t[0] == '-' then "-" else "";
    assert t == sign + u;
    hide Whole, Fraction, Exponent, Decimal;
    Grouped(whole, fraction, exponent);
    SignedDecimal(t, sign, whole, fraction, exponent);
  }

  lemma SignedDecimal(t: string, sign: string, whole: string, fraction: string, exponent: string)
    requires t == sign + (whole + (fraction + exponent)) && (sign == "" || sign == "-")
    requires Whole(whole) && Fraction(fraction) && Exponent(exponent)
    ensures Decimal(t)
  {
    hide Whole, Fraction, Exponent;
    Regroup(sign, whole, fraction, exponent, "");
    assert t == sign + whole + fraction + exponent;
    assert DecimalOf(t, sign, whole, fraction, exponent);
  }

  lemma SignTaken(t: string, sign: string, whole: string, fraction: string, exponent: string)
    requires DecimalOf(t, sign, whole, fraction, exponent)
    ensures DecimalOf(if t != "" && t[0] == '-' then t[1..] else t, "", whole, fraction, exponent)
  {
    if sign == "-" {
      assert t[1..] == "" + whole + fraction + exponent;
    } else {
      assert t[0] == whole[0];
    }
  }
}
