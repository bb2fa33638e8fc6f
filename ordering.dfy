// Result ordering for `orderBy` clauses. A sort key is a sequence of
// integers compared lexicographically; text columns are encoded so that this
// comparison is code-point order on the text (ascending or descending) and
// several columns can be chained, and timestamps are plain numbers.
module Ordering {

  // ------------------------------------------------------------------
  // Lexicographic order
  // ------------------------------------------------------------------

  predicate LexLeq(a: seq<int>, b: seq<int>)
  {
    a == [] || (b != [] && (a[0] < b[0] || (a[0] == b[0] && LexLeq(a[1..], b[1..]))))
  }

  lemma {:induction false} LexTotal(a: seq<int>, b: seq<int>)
    ensures LexLeq(a, b) || LexLeq(b, a)
  {
    if a != [] && b != [] && a[0] == b[0] {
      LexTotal(a[1..], b[1..]);
    }
  }

  lemma {:induction false} LexTrans(a: seq<int>, b: seq<int>, c: seq<int>)
    requires LexLeq(a, b) && LexLeq(b, c)
    ensures LexLeq(a, c)
  {
    if a != [] && b != [] && c != [] && a[0] == b[0] && b[0] == c[0] {
      LexTrans(a[1..], b[1..], c[1..]);
    }
  }

  lemma {:induction false} LexAntisym(a: seq<int>, b: seq<int>)
    requires LexLeq(a, b) && LexLeq(b, a)
    ensures a == b
  {
    if a != [] && b != [] {
      LexAntisym(a[1..], b[1..]);
      assert a == [a[0]] + a[1..] && b == [b[0]] + b[1..];
    }
  }

  /** Code-point order on text. `ORDER BY` on a text column is assumed to
      follow it; the database collation is not modelled. */
  predicate StrLeq(a: string, b: string)
  {
    a == [] || (b != [] && (a[0] < b[0] || (a[0] == b[0] && StrLeq(a[1..], b[1..]))))
  }

  // ------------------------------------------------------------------
  // Key encodings
  // ------------------------------------------------------------------

  /** A text column in ascending order: every code point shifted up by one and
      a terminating 0, so a prefix sorts first and a second key can follow. */
  function AscText(s: string): (k: seq<int>)
    ensures |k| == |s| + 1
  {
    if s == [] then [0] else [s[0] as int + 1] + AscText(s[1..])
  }

  /** A text column in descending order: negated code points and a
      terminating 0, so a prefix sorts last. */
  function DescText(s: string): (k: seq<int>)
    ensures |k| == |s| + 1
  {
    if s == [] then [0] else [-(s[0] as int) - 1] + DescText(s[1..])
  }

  lemma {:induction false} AscTextThen(a: string, b: string, x: seq<int>, y: seq<int>)
    ensures LexLeq(AscText(a) + x, AscText(b) + y)
            <==> (StrLeq(a, b) && a != b) || (a == b && LexLeq(x, y))
  {
    var ka, kb := AscText(a) + x, AscText(b) + y;
    if a == [] && b == [] {
      assert ka[1..] == x && kb[1..] == y;
    } else if a != [] && b != [] {
      assert ka[1..] == AscText(a[1..]) + x && kb[1..] == AscText(b[1..]) + y;
      AscTextThen(a[1..], b[1..], x, y);
      if a[0] == b[0] {
        assert a == b <==> a[1..] == b[1..] by {
          assert a == [a[0]] + a[1..] && b == [b[0]] + b[1..];
        }
      }
    }
  }

  lemma {:induction false} DescTextThen(a: string, b: string, x: seq<int>, y: seq<int>)
    ensures LexLeq(DescText(a) + x, DescText(b) + y)
            <==> (StrLeq(b, a) && a != b) || (a == b && LexLeq(x, y))
  {
    var ka, kb := DescText(a) + x, DescText(b) + y;
    if a == [] && b == [] {
      assert ka[1..] == x && kb[1..] == y;
    } else if a != [] && b != [] {
      assert ka[1..] == DescText(a[1..]) + x && kb[1..] == DescText(b[1..]) + y;
      DescTextThen(a[1..], b[1..], x, y);
      if a[0] == b[0] {
        assert a == b <==> a[1..] == b[1..] by {
          assert a == [a[0]] + a[1..] && b == [b[0]] + b[1..];
        }
      }
    }
  }

  /** A one-column text key orders by code points. */
  lemma AscTextOrder(a: string, b: string)
    ensures LexLeq(AscText(a), AscText(b)) <==> StrLeq(a, b)
  {
    AscTextThen(a, b, [], []);
    assert AscText(a) + [] == AscText(a) && AscText(b) + [] == AscText(b);
    if a == b { StrLeqRefl(a); }
  }

  lemma {:induction false} StrLeqRefl(a: string)
    ensures StrLeq(a, a)
  {
    if a != [] { StrLeqRefl(a[1..]); }
  }

  // ------------------------------------------------------------------
  // Sorting
  // ------------------------------------------------------------------

  predicate SortedBy<T>(s: seq<T>, key: T -> seq<int>)
  {
    forall i, j :: 0 <= i < j < |s| ==> LexLeq(key(s[i]), key(s[j]))
  }


  function Insert<T>(x: T, s: seq<T>, key: T -> seq<int>): (r: seq<T>)
    requires SortedBy(s, key)
    ensures SortedBy(r, key)
    ensures multiset(r) == multiset(s) + multiset{x}
    ensures |r| == |s| + 1
  {
    if s == [] then [x]
    else if LexLeq(key(x), key(s[0])) then
      assert forall j :: 0 <= j < |s| ==> LexLeq(key(x), key(s[j])) by {
        forall j | 0 <= j < |s| ensures LexLeq(key(x), key(s[j])) {
          if j > 0 { LexTrans(key(x), key(s[0]), key(s[j])); }
        }
      }
      [x] + s
    else
      assert s == [s[0]] + s[1..];
      var rest := Insert(x, s[1..], key);
      LexTotal(key(x), key(s[0]));
      InsertAfterHead(x, s, rest, key);
      [s[0]] + rest
  }

  lemma InsertAfterHead<T>(x: T, s: seq<T>, rest: seq<T>, key: T -> seq<int>)
    requires s != [] && SortedBy(s, key) && LexLeq(key(s[0]), key(x))
    requires multiset(rest) == multiset(s[1..]) + multiset{x}
    requires SortedBy(rest, key)
    ensures SortedBy([s[0]] + rest, key)
  {
    var r := [s[0]] + rest;
    forall j | 0 <= j < |rest| ensures LexLeq(key(s[0]), key(rest[j])) {
      assert rest[j] in multiset(rest);
      if rest[j] != x {
        assert rest[j] in multiset(s[1..]);
        var k :| 0 <= k < |s[1..]| && s[1..][k] == rest[j];
        assert s[k + 1] == rest[j];
      }
    }
    forall i, j | 0 <= i < j < |r| ensures LexLeq(key(r[i]), key(r[j])) {
      if i > 0 {
        assert r[i] == rest[i - 1] && r[j] == rest[j - 1];
      } else {
        assert r[j] == rest[j - 1];
      }
    }
  }

  /** Insertion sort: a permutation of the input that is ordered by `key`. */
  function SortBy<T>(s: seq<T>, key: T -> seq<int>): (r: seq<T>)
    ensures SortedBy(r, key)
    ensures multiset(r) == multiset(s)
    ensures |r| == |s|
  {
    if s == [] then []
    else
      assert s == [s[0]] + s[1..];
      Insert(s[0], SortBy(s[1..], key), key)
  }

  /** Sorting keeps exactly the elements it was given. */
  lemma SortByMembers<T>(s: seq<T>, key: T -> seq<int>)
    ensures forall i :: 0 <= i < |SortBy(s, key)| ==> SortBy(s, key)[i] in s
    ensures forall i :: 0 <= i < |s| ==> s[i] in SortBy(s, key)
  {
    var r := SortBy(s, key);
    forall i | 0 <= i < |r| ensures r[i] in s {
      assert r[i] in multiset(r);
    }
    forall i | 0 <= i < |s| ensures s[i] in r {
      assert s[i] in multiset(s);
    }
  }

  /** The elements of `s` that satisfy `keep`, in order. */
  function Filter<T>(s: seq<T>, keep: T -> bool): (r: seq<T>)
    ensures |r| <= |s|
    ensures forall i :: 0 <= i < |r| ==> r[i] in s && keep(r[i])
    ensures forall i :: 0 <= i < |s| && keep(s[i]) ==> s[i] in r
  {
    if s == [] then []
    else if keep(s[0]) then [s[0]] + Filter(s[1..], keep)
    else Filter(s[1..], keep)
  }

  /** Filtering keeps a kept element as often as it occurs, and drops the rest. */
  lemma {:induction false} FilterCounts<T>(s: seq<T>, keep: T -> bool)
    ensures forall x :: multiset(Filter(s, keep))[x] == if keep(x) then multiset(s)[x] else 0
  {
    if s != [] {
      assert s == [s[0]] + s[1..];
      FilterCounts(s[1..], keep);
    }
  }

  /** A listing sorted by `key` after filtering by `keep`: ordered, and each
      element occurs as often as in `s` when kept and not at all otherwise. */
  lemma SortedSelection<T>(s: seq<T>, keep: T -> bool, key: T -> seq<int>)
    ensures var r := SortBy(Filter(s, keep), key);
      && SortedBy(r, key)
      && (forall i :: 0 <= i < |r| ==> r[i] in s && keep(r[i]))
      && (forall i :: 0 <= i < |s| && keep(s[i]) ==> s[i] in r)
      && (forall x :: multiset(r)[x] == if keep(x) then multiset(s)[x] else 0)
  {
    SortByMembers(Filter(s, keep), key);
    FilterCounts(s, keep);
  }

  /** `take`: at most the first `n` elements. */
  function Take<T>(s: seq<T>, n: nat): (r: seq<T>)
    ensures |r| == if |s| < n then |s| else n
    ensures r == s[..|r|]
  {
    if |s| <= n then s else s[..n]
  }

  /** `skip` then `take`. */
  function Window<T>(s: seq<T>, skip: nat, take: nat): (r: seq<T>)
    ensures skip >= |s| ==> r == []
    ensures skip < |s| ==> r == Take(s[skip..], take)
  {
    if skip >= |s| then [] else Take(s[skip..], take)
  }

  /** Taking a prefix of a sorted sequence keeps it sorted. */
  lemma SortedPrefix<T>(s: seq<T>, n: nat, key: T -> seq<int>)
    requires SortedBy(s, key) && n <= |s|
    ensures SortedBy(s[..n], key)
  {
  }

  /** Keeping a window of a sorted sequence keeps it sorted, and every element
      kept comes from the sequence. */
  lemma WindowSorted<T>(s: seq<T>, skip: nat, take: nat, key: T -> seq<int>)
    requires SortedBy(s, key)
    ensures SortedBy(Window(s, skip, take), key)
    ensures forall i :: 0 <= i < |Window(s, skip, take)| ==> Window(s, skip, take)[i] in s
  {
    var w := Window(s, skip, take);
    if skip < |s| {
      forall i | 0 <= i < |w| ensures w[i] == s[skip + i] && w[i] in s {
        assert w[i] == s[skip..][i];
      }
    }
  }

  /** A numeric column in ascending and in descending order. */
  function AscNum(n: int): (k: seq<int>) { [n] }
  function DescNum(n: int): (k: seq<int>) { [-n] }

  lemma NumOrder(a: int, b: int)
    ensures LexLeq(AscNum(a), AscNum(b)) <==> a <= b
    ensures LexLeq(DescNum(a), DescNum(b)) <==> b <= a
  {
    assert AscNum(a)[1..] == [] && DescNum(a)[1..] == [];
  }

  /** A numeric first column followed by further columns. */
  lemma AscNumThen(a: int, b: int, x: seq<int>, y: seq<int>)
    ensures LexLeq(AscNum(a) + x, AscNum(b) + y) <==> a < b || (a == b && LexLeq(x, y))
  {
    assert (AscNum(a) + x)[1..] == x && (AscNum(b) + y)[1..] == y;
  }

  /** A one-column descending text key orders by code points, reversed. */
  lemma DescTextOrder(a: string, b: string)
    ensures LexLeq(DescText(a), DescText(b)) <==> StrLeq(b, a)
  {
    DescTextThen(a, b, [], []);
    assert DescText(a) + [] == DescText(a) && DescText(b) + [] == DescText(b);
    if a == b { StrLeqRefl(a); }
  }

  /** Two columns, the first ascending text, the second ascending text. */
  function AscAsc(a: string, b: string): (k: seq<int>)
  {
    AscText(a) + AscText(b)
  }

  /** On a list sorted by `AscAsc` of two columns, the first column never
      decreases, and among equal first columns the second never decreases. */
  lemma AscAscOrder(a1: string, b1: string, a2: string, b2: string)
    ensures LexLeq(AscAsc(a1, b1), AscAsc(a2, b2))
            <==> (StrLeq(a1, a2) && a1 != a2) || (a1 == a2 && StrLeq(b1, b2))
  {
    AscTextThen(a1, a2, AscText(b1), AscText(b2));
    AscTextOrder(b1, b2);
  }
}
