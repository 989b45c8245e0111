/** Zero-padded sort keys, and what a sorted query over them returns.
    The audit chain (`SEQ#...`) and the policy history (`VERSION#...`) number their items this way. */
module Slots {
  import opened Order

  const WIDTH: nat := 12

  /** The first number whose key no longer fits the width. */
  const CAPACITY: nat := 1_000_000_000_000

  function Digit(d: nat): char
    requires d < 10
  {
    "0123456789"[d]
  }

  function Decimal(n: nat): string {
    if n < 10 then [Digit(n)] else Decimal(n / 10) + [Digit(n % 10)]
  }

  function ZeroPad(s: string, width: nat): string
    decreases width - |s|
  {
    if |s| >= width then s else ZeroPad("0" + s, width)
  }

  /** `f"{prefix}{n:012d}"` */
  function SlotKey(prefix: string, n: nat): string {
    prefix + ZeroPad(Decimal(n), WIDTH)
  }

  predicate HasPrefix(s: string, prefix: string) { prefix <= s }

  // ---------------------------------------------------------------------------------------
  // Keys compare as their numbers do, up to the capacity and no further
  // ---------------------------------------------------------------------------------------

  function Pow10(w: nat): nat { if w == 0 then 1 else 10 * Pow10(w - 1) }

  /** The last `w` decimal digits. */
  function Fixed(n: nat, w: nat): (s: string)
    ensures |s| == w
  {
    if w == 0 then "" else Fixed(n / 10, w - 1) + [Digit(n % 10)]
  }

  lemma {:induction false} PadBehind(s: string, c: char, width: nat)
    ensures ZeroPad(s + [c], width + 1) == ZeroPad(s, width) + [c]
    decreases width - |s|
  {
    if |s| < width {
      assert "0" + (s + [c]) == ("0" + s) + [c];
      PadBehind("0" + s, c, width);
    }
  }

  lemma {:induction false} PadZero(w: nat)
    requires w > 0
    ensures ZeroPad("0", w) == Fixed(0, w)
  {
    if w > 1 {
      PadZero(w - 1);
      PadBehind("", '0', w - 1);
      assert "" + ['0'] == "0";
      assert ZeroPad("", w - 1) == ZeroPad("0" + "", w - 1) && "0" + "" == "0";
    }
  }

  lemma {:induction false} PadIsFixed(n: nat, w: nat)
    requires w > 0 && n < Pow10(w)
    ensures ZeroPad(Decimal(n), w) == Fixed(n, w)
  {
    if n >= 10 {
      PadIsFixed(n / 10, w - 1);
      PadBehind(Decimal(n / 10), Digit(n % 10), w - 1);
    } else if w > 1 {
      PadZero(w - 1);
      PadBehind("", Digit(n), w - 1);
      assert "" + [Digit(n)] == Decimal(n);
      assert ZeroPad("", w - 1) == ZeroPad("0" + "", w - 1) && "0" + "" == "0";
    }
  }

  lemma {:induction false} FixedOrder(a: nat, b: nat, w: nat)
    requires a < Pow10(w) && b < Pow10(w)
    ensures Before(Fixed(a, w), Fixed(b, w)) <==> a < b
    ensures Fixed(a, w) == Fixed(b, w) <==> a == b
  {
    if w > 0 {
      FixedOrder(a / 10, b / 10, w - 1);
      BeforeEqualLength(Fixed(a / 10, w - 1), Fixed(b / 10, w - 1), [Digit(a % 10)], [Digit(b % 10)]);
      var x, y := Fixed(a, w), Fixed(b, w);
      if x == y {
        assert x[..w - 1] == Fixed(a / 10, w - 1) && y[..w - 1] == Fixed(b / 10, w - 1);
        assert x[w - 1] == Digit(a % 10) && y[w - 1] == Digit(b % 10);
      }
    }
  }

  lemma KeyIsFixed(prefix: string, n: nat)
    requires n < CAPACITY
    ensures SlotKey(prefix, n) == prefix + Fixed(n, WIDTH)
  {
    assert Pow10(12) == CAPACITY;
    PadIsFixed(n, WIDTH);
  }

  /** Below the capacity, comparing keys is comparing numbers. */
  lemma KeyOrder(prefix: string, a: nat, b: nat)
    requires a < CAPACITY && b < CAPACITY
    ensures Before(SlotKey(prefix, a), SlotKey(prefix, b)) <==> a < b
    ensures SlotKey(prefix, a) == SlotKey(prefix, b) <==> a == b
  {
    assert Pow10(12) == CAPACITY;
    KeyIsFixed(prefix, a);
    KeyIsFixed(prefix, b);
    FixedOrder(a, b, WIDTH);
    BeforePrefix(prefix, Fixed(a, WIDTH), Fixed(b, WIDTH));
    assert (prefix + Fixed(a, WIDTH))[|prefix|..] == Fixed(a, WIDTH);
    assert (prefix + Fixed(b, WIDTH))[|prefix|..] == Fixed(b, WIDTH);
  }

  lemma {:induction false} PowerDecimal(w: nat)
    ensures |Decimal(Pow10(w))| == w + 1 && Decimal(Pow10(w))[0] == '1'
  {
    if w > 0 {
      PowerDecimal(w - 1);
      assert Pow10(w) / 10 == Pow10(w - 1) && Pow10(w) >= 10;
    }
  }

  lemma {:induction false} PowerPositive(w: nat)
    ensures Pow10(w) > 0
  {
    if w > 0 {
      PowerPositive(w - 1);
    }
  }

  lemma {:induction false} NinesFirst(w: nat)
    requires w > 0
    ensures Pow10(w) > 0 && Fixed(Pow10(w) - 1, w)[0] == '9'
  {
    PowerPositive(w);
    if w > 1 {
      NinesFirst(w - 1);
      assert (Pow10(w) - 1) / 10 == Pow10(w - 1) - 1;
    }
  }

  /** At the capacity the key sorts before its predecessor's, and is still a new key. */
  lemma {:induction false} KeyOrderEnds(prefix: string)
    ensures Before(SlotKey(prefix, CAPACITY), SlotKey(prefix, CAPACITY - 1))
    ensures forall n: nat | n < CAPACITY :: SlotKey(prefix, n) != SlotKey(prefix, CAPACITY)
  {
    assert Pow10(12) == CAPACITY;
    PowerDecimal(12);
    NinesFirst(12);
    KeyIsFixed(prefix, CAPACITY - 1);
    assert SlotKey(prefix, CAPACITY) == prefix + Decimal(CAPACITY);
    BeforePrefix(prefix, Decimal(CAPACITY), Fixed(CAPACITY - 1, WIDTH));
    forall n: nat | n < CAPACITY ensures SlotKey(prefix, n) != SlotKey(prefix, CAPACITY) {
      KeyIsFixed(prefix, n);
    }
  }

  function DigitValue(c: char): int { c as int - '0' as int }

  /** The number a text of digits stands for. */
  function ValueOf(s: string): int {
    if s == "" then 0 else 10 * ValueOf(s[..|s| - 1]) + DigitValue(s[|s| - 1])
  }

  lemma {:induction false} DecimalValue(n: nat)
    ensures ValueOf(Decimal(n)) == n
  {
    assert n < 10 ==> Decimal(n)[..0] == "";
    if n >= 10 {
      DecimalValue(n / 10);
      assert Decimal(n)[..|Decimal(n)| - 1] == Decimal(n / 10);
    }
  }

  lemma {:induction false} LeadingZero(s: string)
    ensures ValueOf("0" + s) == ValueOf(s)
  {
    if s == "" {
      assert ("0" + s)[..0] == "";
    } else {
      LeadingZero(s[..|s| - 1]);
      assert ("0" + s)[..|s|] == "0" + s[..|s| - 1];
    }
  }

  lemma {:induction false} PadValue(s: string, width: nat)
    ensures ValueOf(ZeroPad(s, width)) == ValueOf(s)
    decreases width - |s|
  {
    if |s| < width {
      PadValue("0" + s, width);
      LeadingZero(s);
    }
  }

  /** Different numbers have different keys, at any size. */
  lemma SlotKeyInjective(prefix: string, a: nat, b: nat)
    requires SlotKey(prefix, a) == SlotKey(prefix, b)
    ensures a == b
  {
    var x, y := ZeroPad(Decimal(a), WIDTH), ZeroPad(Decimal(b), WIDTH);
    assert SlotKey(prefix, a)[|prefix|..] == x && SlotKey(prefix, b)[|prefix|..] == y;
    PadValue(Decimal(a), WIDTH);
    PadValue(Decimal(b), WIDTH);
    DecimalValue(a);
    DecimalValue(b);
  }

  lemma {:induction false} FixedDigits(n: nat, w: nat)
    ensures forall i | 0 <= i < w :: '0' <= Fixed(n, w)[i] <= '9'
  {
    if w > 0 {
      FixedDigits(n / 10, w - 1);
    }
  }

  /** Below the capacity a key is its prefix and the number in twelve digits. */
  lemma KeyDigits(prefix: string, n: nat)
    requires n < CAPACITY
    ensures var key := SlotKey(prefix, n);
            && |key| == |prefix| + 12 && key[..|prefix|] == prefix
            && (forall i | |prefix| <= i < |key| :: '0' <= key[i] <= '9') && ValueOf(key[|prefix|..]) == n
  {
    KeyIsFixed(prefix, n);
    FixedDigits(n, WIDTH);
    PadValue(Decimal(n), WIDTH);
    DecimalValue(n);
    assert SlotKey(prefix, n)[|prefix|..] == ZeroPad(Decimal(n), WIDTH);
    hide ValueOf, ZeroPad, Decimal, Fixed;
  }

  // ---------------------------------------------------------------------------------------
  // Queries: the descending one with Limit=1, and the ascending one
  // ---------------------------------------------------------------------------------------

  ghost function LastOf(keys: set<string>): (m: string)
    requires keys != {}
    ensures m in keys && forall k | k in keys :: k == m || Before(k, m)
  {
    var k :| k in keys;
    if keys == {k} then k
    else
      var rest := keys - {k};
      assert rest != {};
      var m := LastOf(rest);
      GreaterOfTwo(rest, m, k);
      if Before(m, k) then k else m
  }

  lemma GreaterOfTwo(rest: set<string>, m: string, k: string)
    requires forall x | x in rest :: x == m || Before(x, m)
    ensures Before(m, k) ==> forall x | x in rest :: Before(x, k)
    ensures !Before(m, k) ==> k == m || Before(k, m)
  {
    BeforeTotal(k, m);
    if Before(m, k) {
      forall x | x in rest ensures Before(x, k) {
        if x != m {
          BeforeTransitive(x, m, k);
        }
      }
    }
  }

  /** The key a query with `ScanIndexForward=False, Limit=1` finds. */
  ghost function Newest(keys: set<string>): Option<string> {
    if keys == {} then None else Some(LastOf(keys))
  }

  const Itself: string -> string := (k: string) => k

  /** The keys a query with `ScanIndexForward=True` walks, in that order. */
  ghost function Ascending(keys: set<string>): (r: seq<string>)
    ensures StrictlySorted(r, Itself) && forall k :: k in r <==> k in keys
    decreases |keys|
  {
    if keys == {} then []
    else
      var m := LastOf(keys);
      var r := Ascending(keys - {m}) + [m];
      assert forall j | 0 <= j < |r| - 1 :: r[j] in keys - {m};
      r
  }

  /** Keys numbered 1 to n, without a gap. */
  ghost function SlotKeys(prefix: string, n: nat): set<string> {
    set i: nat | 1 <= i <= n :: SlotKey(prefix, i)
  }

  lemma SlotKeysNext(prefix: string, n: nat)
    requires n >= 1
    ensures SlotKeys(prefix, n) == SlotKeys(prefix, n - 1) + {SlotKey(prefix, n)}
    ensures SlotKey(prefix, n) !in SlotKeys(prefix, n - 1)
  {
    var last := SlotKey(prefix, n);
    forall i: nat | 1 <= i <= n - 1 ensures SlotKey(prefix, i) != last {
      if SlotKey(prefix, i) == last {
        SlotKeyInjective(prefix, i, n);
      }
    }
    forall k | k in SlotKeys(prefix, n) ensures k in SlotKeys(prefix, n - 1) + {last} {
      var i: nat :| 1 <= i <= n && k == SlotKey(prefix, i);
      assert i == n || i <= n - 1;
    }
  }

  lemma {:induction false} SlotKeysCount(prefix: string, n: nat)
    ensures |SlotKeys(prefix, n)| == n
  {
    if n == 0 {
      assert SlotKeys(prefix, 0) == {};
    } else {
      SlotKeysCount(prefix, n - 1);
      SlotKeysNext(prefix, n);
    }
  }

  /** The descending query finds slot n of 1..n exactly while n is below the capacity;
      at the capacity it finds the slot before. */
  lemma NewestSlot(prefix: string, n: nat)
    requires n <= CAPACITY
    ensures Newest(SlotKeys(prefix, n))
         == if n == 0 then None else Some(SlotKey(prefix, if n < CAPACITY then n else n - 1))
  {
    var keys := SlotKeys(prefix, n);
    if n > 0 {
      var top := if n < CAPACITY then n else n - 1;
      assert SlotKey(prefix, top) in keys;
      var m := LastOf(keys);
      var i: nat :| 1 <= i <= n && m == SlotKey(prefix, i);
      if m != SlotKey(prefix, top) {
        assert Before(SlotKey(prefix, top), m);
        if i == CAPACITY {
          KeyOrderEnds(prefix);
          BeforeAsymmetric(m, SlotKey(prefix, top));
        } else {
          KeyOrder(prefix, top, i);
        }
      }
    } else {
      assert keys == {};
    }
  }

  /** The keys of slots 1 to n, in number order. */
  ghost function SlotSequence(prefix: string, n: nat): (r: seq<string>)
    ensures |r| == n && forall i | 0 <= i < n :: r[i] == SlotKey(prefix, i + 1)
  {
    seq(n, i requires 0 <= i < n => SlotKey(prefix, i + 1))
  }

  lemma SlotSequenceSorted(prefix: string, n: nat)
    requires n < CAPACITY
    ensures StrictlySorted(SlotSequence(prefix, n), Itself)
  {
    var r := SlotSequence(prefix, n);
    forall i, j | 0 <= i < j < n ensures Before(Itself(r[i]), Itself(r[j])) {
      KeyOrder(prefix, i + 1, j + 1);
    }
  }

  lemma SlotSequenceMembers(prefix: string, n: nat, k: string)
    ensures k in SlotSequence(prefix, n) <==> k in SlotKeys(prefix, n)
  {
    var r := SlotSequence(prefix, n);
    if k in SlotKeys(prefix, n) {
      var i: nat :| 1 <= i <= n && k == SlotKey(prefix, i);
      assert r[i - 1] == k;
    }
    if k in r {
      var i :| 0 <= i < n && r[i] == k;
      assert k == SlotKey(prefix, i + 1);
    }
  }

  /** Below the capacity the ascending query walks the slots in number order. */
  lemma {:induction false} AscendingSlots(prefix: string, n: nat)
    requires n < CAPACITY
    ensures Ascending(SlotKeys(prefix, n)) == SlotSequence(prefix, n)
  {
    SlotSequenceSorted(prefix, n);
    forall k ensures k in SlotSequence(prefix, n) <==> k in Ascending(SlotKeys(prefix, n)) {
      SlotSequenceMembers(prefix, n, k);
    }
    SortedUnique(Ascending(SlotKeys(prefix, n)), SlotSequence(prefix, n), Itself);
  }
}
