/** The order in which both Python and DynamoDB compare strings, and sorting by a string key. */
module Order {

  datatype Option<+T> = None | Some(value: T)

  /** Strictly before, comparing code point by code point; a proper prefix comes first. */
  predicate Before(a: string, b: string) {
    |b| > 0 && (|a| == 0 || a[0] < b[0] || (a[0] == b[0] && Before(a[1..], b[1..])))
  }

  lemma {:induction false} BeforeIrreflexive(a: string)
    ensures !Before(a, a)
  {
    if |a| > 0 {
      BeforeIrreflexive(a[1..]);
    }
  }

  lemma {:induction false} BeforeTransitive(a: string, b: string, c: string)
    requires Before(a, b) && Before(b, c)
    ensures Before(a, c)
  {
    if |a| > 0 && a[0] == b[0] == c[0] {
      BeforeTransitive(a[1..], b[1..], c[1..]);
    }
  }

  lemma {:induction false} BeforeTotal(a: string, b: string)
    ensures a == b || Before(a, b) || Before(b, a)
  {
    if |a| > 0 && |b| > 0 && a[0] == b[0] {
      BeforeTotal(a[1..], b[1..]);
      assert a == [a[0]] + a[1..] && b == [b[0]] + b[1..];
    }
  }

  lemma BeforeAsymmetric(a: string, b: string)
    requires Before(a, b)
    ensures !Before(b, a) && a != b
  {
    BeforeIrreflexive(a);
    if Before(b, a) {
      BeforeTransitive(a, b, a);
    }
  }

  /** A common prefix does not influence the comparison. */
  lemma {:induction false} BeforePrefix(p: string, a: string, b: string)
    ensures Before(p + a, p + b) == Before(a, b)
  {
    if |p| == 0 {
      assert p + a == a && p + b == b;
    } else {
      assert (p + a)[1..] == p[1..] + a && (p + b)[1..] == p[1..] + b;
      BeforePrefix(p[1..], a, b);
    }
  }

  /** Behind prefixes of equal length the tails only break ties. */
  lemma {:induction false} BeforeEqualLength(a: string, b: string, x: string, y: string)
    requires |a| == |b|
    ensures Before(a + x, b + y) == (Before(a, b) || (a == b && Before(x, y)))
  {
    if |a| == 0 {
      assert a + x == x && b + y == y;
    } else {
      assert (a + x)[1..] == a[1..] + x && (b + y)[1..] == b[1..] + y;
      BeforeEqualLength(a[1..], b[1..], x, y);
      assert a == [a[0]] + a[1..] && b == [b[0]] + b[1..];
    }
  }

  // ---------------------------------------------------------------------------------------
  // Sorting by a string key (Python's `sorted(xs, key=...)`)
  // ---------------------------------------------------------------------------------------

  ghost predicate StrictlySorted<T>(xs: seq<T>, key: T -> string) {
    forall i, j | 0 <= i < j < |xs| :: Before(key(xs[i]), key(xs[j]))
  }

  ghost predicate DistinctKeys<T>(xs: seq<T>, key: T -> string) {
    forall i, j | 0 <= i < j < |xs| :: key(xs[i]) != key(xs[j])
  }

  function Insert<T>(x: T, xs: seq<T>, key: T -> string): seq<T> {
    if |xs| == 0 || Before(key(x), key(xs[0])) then [x] + xs
    else [xs[0]] + Insert(x, xs[1..], key)
  }

  function SortOn<T>(xs: seq<T>, key: T -> string): seq<T> {
    if |xs| == 0 then [] else Insert(xs[0], SortOn(xs[1..], key), key)
  }

  lemma {:induction false} InsertMembers<T(!new)>(x: T, xs: seq<T>, key: T -> string)
    ensures |Insert(x, xs, key)| == |xs| + 1
    ensures forall y :: y in Insert(x, xs, key) <==> y == x || y in xs
  {
    if |xs| > 0 && !Before(key(x), key(xs[0])) {
      InsertMembers(x, xs[1..], key);
      assert xs == [xs[0]] + xs[1..];
    }
  }

  lemma {:induction false} InsertSorted<T(!new)>(x: T, xs: seq<T>, key: T -> string)
    requires StrictlySorted(xs, key)
    requires forall y | y in xs :: key(y) != key(x)
    ensures StrictlySorted(Insert(x, xs, key), key)
  {
    if |xs| == 0 {
    } else if Before(key(x), key(xs[0])) {
      forall j | 0 < j < |xs| ensures Before(key(x), key(xs[j])) {
        BeforeTransitive(key(x), key(xs[0]), key(xs[j]));
      }
    } else {
      BeforeTotal(key(x), key(xs[0]));
      var rest := Insert(x, xs[1..], key);
      InsertSorted(x, xs[1..], key);
      InsertMembers(x, xs[1..], key);
      forall i | 0 <= i < |rest| ensures Before(key(xs[0]), key(rest[i])) {
        var y := rest[i];
        assert y in rest;
        if y != x {
          var j :| 0 <= j < |xs[1..]| && xs[1..][j] == y;
          assert xs[j + 1] == y;
        }
      }
    }
  }

  lemma {:induction false} SortMembers<T(!new)>(xs: seq<T>, key: T -> string)
    ensures |SortOn(xs, key)| == |xs|
    ensures forall y :: y in SortOn(xs, key) <==> y in xs
  {
    if |xs| > 0 {
      SortMembers(xs[1..], key);
      InsertMembers(xs[0], SortOn(xs[1..], key), key);
      assert xs == [xs[0]] + xs[1..];
    }
  }

  lemma {:induction false} SortSorts<T(!new)>(xs: seq<T>, key: T -> string)
    requires DistinctKeys(xs, key)
    ensures StrictlySorted(SortOn(xs, key), key)
  {
    if |xs| > 0 {
      SortSorts(xs[1..], key);
      SortMembers(xs[1..], key);
      forall y | y in SortOn(xs[1..], key) ensures key(y) != key(xs[0]) {
        var j :| 0 <= j < |xs[1..]| && xs[1..][j] == y;
        assert xs[j + 1] == y;
      }
      InsertSorted(xs[0], SortOn(xs[1..], key), key);
    }
  }

  lemma MemberOfEmpty<T(!new)>(xs: seq<T>, ys: seq<T>)
    requires forall z :: z in xs <==> z in ys
    ensures ys != [] ==> xs != []
  {
    if ys != [] {
      assert ys[0] in xs;
    }
  }

  /** Strictly sorted sequences are determined by their elements. */
  lemma {:induction false} SortedUnique<T(!new)>(xs: seq<T>, ys: seq<T>, key: T -> string)
    requires StrictlySorted(xs, key) && StrictlySorted(ys, key)
    requires forall z :: z in xs <==> z in ys
    ensures xs == ys
  {
    if |xs| == 0 {
      MemberOfEmpty(xs, ys);
    } else {
      assert xs[0] in ys;
      assert |ys| > 0;
      assert ys[0] in xs;
      if xs[0] != ys[0] {
        var i :| 0 <= i < |ys| && ys[i] == xs[0];
        var j :| 0 <= j < |xs| && xs[j] == ys[0];
        BeforeAsymmetric(key(ys[0]), key(xs[0]));
      }
      forall z ensures z in xs[1..] <==> z in ys[1..] {
        TailMembers(xs, key, z);
        TailMembers(ys, key, z);
      }
      SortedUnique(xs[1..], ys[1..], key);
      assert xs == [xs[0]] + xs[1..] && ys == [ys[0]] + ys[1..];
    }
  }

  lemma TailMembers<T(!new)>(xs: seq<T>, key: T -> string, z: T)
    requires StrictlySorted(xs, key) && |xs| > 0
    ensures z in xs[1..] <==> z in xs && z != xs[0]
  {
    assert xs == [xs[0]] + xs[1..];
    if xs[0] in xs[1..] {
      var j :| 0 <= j < |xs[1..]| && xs[1..][j] == xs[0];
      assert xs[j + 1] == xs[0];
      BeforeIrreflexive(key(xs[0]));
    }
  }

  lemma SortedDistinct<T(!new)>(xs: seq<T>, key: T -> string)
    requires StrictlySorted(xs, key)
    ensures DistinctKeys(xs, key)
  {
    forall i, j | 0 <= i < j < |xs| ensures key(xs[i]) != key(xs[j]) {
      BeforeAsymmetric(key(xs[i]), key(xs[j]));
    }
  }

  lemma SortFixpoint<T(!new)>(xs: seq<T>, key: T -> string)
    requires StrictlySorted(xs, key)
    ensures SortOn(xs, key) == xs
  {
    SortedDistinct(xs, key);
    SortSorts(xs, key);
    SortMembers(xs, key);
    SortedUnique(SortOn(xs, key), xs, key);
  }
}
