/**
 * Python's stable `sorted(..., reverse=True)` / `list.sort(..., reverse=True)`,
 * stated on positions: the result lists every position once, higher keys first,
 * and equal keys in their original order.
 */
module Sorting {
  import opened Common

  /** `lt` is a strict total order on keys (Python's `<` on reals or on strings). */
  ghost predicate StrictTotalOrder<K(!new)>(lt: (K, K) -> bool)
  {
    && (forall a :: !lt(a, a))
    && (forall a, b, c :: lt(a, b) && lt(b, c) ==> lt(a, c))
    && (forall a, b :: a != b ==> lt(a, b) || lt(b, a))
  }

  /** Position `p` comes before position `q` in a stable descending sort. */
  predicate Above<K>(keys: seq<K>, lt: (K, K) -> bool, p: nat, q: nat)
    requires p < |keys| && q < |keys|
  {
    lt(keys[q], keys[p]) || (!lt(keys[p], keys[q]) && p < q)
  }

  /** `s` is strictly ordered by `Above`: sorted, stable, and without repeated positions. */
  ghost predicate RankedBy<K>(keys: seq<K>, lt: (K, K) -> bool, s: seq<nat>)
  {
    && (forall i :: 0 <= i < |s| ==> s[i] < |keys|)
    && (forall i, j :: 0 <= i < j < |s| ==> Above(keys, lt, s[i], s[j]))
  }

  lemma AboveStrictTotal<K(!new)>(keys: seq<K>, lt: (K, K) -> bool, p: nat, q: nat, o: nat)
    requires StrictTotalOrder(lt)
    requires p < |keys| && q < |keys| && o < |keys|
    ensures !Above(keys, lt, p, p)
    ensures p != q ==> Above(keys, lt, p, q) || Above(keys, lt, q, p)
    ensures Above(keys, lt, p, q) && Above(keys, lt, q, o) ==> Above(keys, lt, p, o)
    ensures Above(keys, lt, p, q) ==> !Above(keys, lt, q, p)
  {
  }

  /** Inserts position `p` into `s` in front of the first position it ranks above. */
  function Insert<K>(keys: seq<K>, lt: (K, K) -> bool, p: nat, s: seq<nat>): (r: seq<nat>)
    requires p < |keys| && forall i :: 0 <= i < |s| ==> s[i] < |keys|
    ensures multiset(r) == multiset(s) + multiset{p}
    ensures forall i :: 0 <= i < |r| ==> r[i] < |keys|
  {
    if s == [] then [p]
    else if Above(keys, lt, p, s[0]) then [p] + s
    else
      assert s == [s[0]] + s[1..];
      [s[0]] + Insert(keys, lt, p, s[1..])
  }

  lemma {:induction false} InsertRanked<K(!new)>(keys: seq<K>, lt: (K, K) -> bool, p: nat, s: seq<nat>)
    requires StrictTotalOrder(lt)
    requires p < |keys| && p !in s
    requires RankedBy(keys, lt, s)
    ensures RankedBy(keys, lt, Insert(keys, lt, p, s))
  {
    if s == [] {
    } else if Above(keys, lt, p, s[0]) {
      forall j | 0 <= j < |s| ensures Above(keys, lt, p, s[j]) {
        if j > 0 {
          AboveStrictTotal(keys, lt, p, s[0], s[j]);
        }
      }
      RankedCons(keys, lt, p, s);
    } else {
      var t := Insert(keys, lt, p, s[1..]);
      assert p !in s[1..];
      InsertRanked(keys, lt, p, s[1..]);
      AboveStrictTotal(keys, lt, p, s[0], s[0]);
      forall j | 0 <= j < |t| ensures Above(keys, lt, s[0], t[j]) {
        InsertedFrom(keys, lt, p, s, t, j);
      }
      RankedCons(keys, lt, s[0], t);
    }
  }

  /** An element of `Insert(p, s[1..])` is `p` or a later element of `s`. */
  lemma InsertedFrom<K>(keys: seq<K>, lt: (K, K) -> bool, p: nat, s: seq<nat>, t: seq<nat>, j: nat)
    requires s != [] && p < |keys| && forall i :: 0 <= i < |s| ==> s[i] < |keys|
    requires t == Insert(keys, lt, p, s[1..]) && j < |t|
    ensures t[j] == p || exists k :: 0 < k < |s| && s[k] == t[j]
  {
    assert t[j] in multiset(t);
    if t[j] != p {
      assert t[j] in multiset(s[1..]);
      var k :| 0 <= k < |s[1..]| && s[1..][k] == t[j];
      assert s[k + 1] == t[j];
    }
  }

  /** Putting a position in front of a ranked sequence it ranks above keeps it ranked. */
  lemma RankedCons<K>(keys: seq<K>, lt: (K, K) -> bool, x: nat, s: seq<nat>)
    requires x < |keys| && RankedBy(keys, lt, s)
    requires forall j :: 0 <= j < |s| ==> Above(keys, lt, x, s[j])
    ensures RankedBy(keys, lt, [x] + s)
  {
    var r := [x] + s;
    forall i, j | 0 <= i < j < |r| ensures Above(keys, lt, r[i], r[j]) {
      if i > 0 {
        assert r[i] == s[i - 1];
      }
      assert r[j] == s[j - 1];
    }
  }

  /** The first `n` positions of `keys`, in stable descending order. */
  function RankPrefix<K(!new)>(keys: seq<K>, lt: (K, K) -> bool, n: nat): (r: seq<nat>)
    requires StrictTotalOrder(lt)
    requires n <= |keys|
    ensures multiset(r) == multiset(Positions(n))
    ensures RankedBy(keys, lt, r)
  {
    if n == 0 then []
    else
      var s := RankPrefix(keys, lt, n - 1);
      PositionsBound(n - 1);
      assert n - 1 !in multiset(Positions(n - 1));
      assert n - 1 !in s;
      InsertRanked(keys, lt, n - 1, s);
      assert Positions(n) == Positions(n - 1) + [n - 1];
      Insert(keys, lt, n - 1, s)
  }

  /** The positions `0, 1, ..., n - 1`. */
  function Positions(n: nat): (r: seq<nat>)
    ensures |r| == n && forall i :: 0 <= i < n ==> r[i] == i
  {
    if n == 0 then [] else Positions(n - 1) + [n - 1]
  }

  lemma PositionsBound(n: nat)
    ensures forall x :: x in multiset(Positions(n)) ==> x < n
  {
    forall x | x in multiset(Positions(n)) ensures x < n {
      assert x in Positions(n);
    }
  }

  /**
   * `sorted(range(len(keys)), key=lambda i: keys[i], reverse=True)`: every position
   * exactly once, higher keys first, ties in increasing position.
   */
  function Rank<K(!new)>(keys: seq<K>, lt: (K, K) -> bool): (r: seq<nat>)
    requires StrictTotalOrder(lt)
    ensures |r| == |keys|
    ensures RankedBy(keys, lt, r)
    ensures forall p :: 0 <= p < |keys| ==> p in r
  {
    var r := RankPrefix(keys, lt, |keys|);
    assert |r| == |multiset(r)| == |Positions(|keys|)|;
    forall p | 0 <= p < |keys| ensures p in r {
      assert Positions(|keys|)[p] == p;
      assert p in multiset(Positions(|keys|));
    }
    r
  }

  /** A `RankedBy` sequence never repeats a position. */
  lemma RankedDistinct<K(!new)>(keys: seq<K>, lt: (K, K) -> bool, s: seq<nat>)
    requires StrictTotalOrder(lt)
    requires RankedBy(keys, lt, s)
    ensures forall i, j :: 0 <= i < j < |s| ==> s[i] != s[j]
  {
    forall i, j | 0 <= i < j < |s| ensures s[i] != s[j] {
      AboveStrictTotal(keys, lt, s[i], s[j], s[j]);
    }
  }

  /**
   * Any sequence that lists every position once in stable descending order is
   * the one `Rank` computes: the order is fully determined by the keys.
   */
  lemma {:induction false} RankUnique<K(!new)>(keys: seq<K>, lt: (K, K) -> bool, s: seq<nat>, t: seq<nat>)
    requires StrictTotalOrder(lt)
    requires RankedBy(keys, lt, s) && RankedBy(keys, lt, t)
    requires |s| == |t|
    requires forall x :: x in s <==> x in t
    ensures s == t
  {
    if s != [] {
      assert s[0] in t;
      assert t[0] in s;
      if s[0] != t[0] {
        var i :| 0 <= i < |t| && t[i] == s[0];
        var j :| 0 <= j < |s| && s[j] == t[0];
        AboveStrictTotal(keys, lt, s[0], t[0], t[0]);
      }
      RankedDistinct(keys, lt, s);
      RankedDistinct(keys, lt, t);
      forall x ensures x in s[1..] <==> x in t[1..] {
        if x in s[1..] {
          var i :| 1 <= i < |s| && s[i] == x;
          assert x in t;
        }
        if x in t[1..] {
          var i :| 1 <= i < |t| && t[i] == x;
          assert x in s;
        }
      }
      RankUnique(keys, lt, s[1..], t[1..]);
      assert s == [s[0]] + s[1..];
      assert t == [t[0]] + t[1..];
    }
  }

  /** Python's `<` on reals. */
  function RealLt(): (real, real) -> bool
  {
    (a: real, b: real) => a < b
  }

  lemma RealLtTotal()
    ensures StrictTotalOrder(RealLt())
  {
  }

  /** `Rank` under Python's `<` on reals: the order `sorted(..., reverse=True)` gives score positions. */
  function RankReals(keys: seq<real>): (r: seq<nat>)
    ensures |r| == |keys|
    ensures RankedBy(keys, RealLt(), r)
    ensures forall p :: 0 <= p < |keys| ==> p in r
  {
    RealLtTotal();
    Rank(keys, RealLt())
  }

  /** `sorted(xs, key=score, reverse=True)`, with the scores given position by position. */
  function SortReals<T>(xs: seq<T>, keys: seq<real>): (r: seq<T>)
    requires |keys| == |xs|
    ensures |r| == |xs|
  {
    Pick(xs, RankReals(keys))
  }

  /** Python's `<` on strings: lexicographic by code point. */
  predicate StrLt(a: string, b: string)
  {
    if a == [] then b != []
    else if b == [] then false
    else if a[0] != b[0] then a[0] < b[0]
    else StrLt(a[1..], b[1..])
  }

  lemma {:induction false} StrLtIrreflexive(a: string)
    ensures !StrLt(a, a)
  {
    if a != [] {
      StrLtIrreflexive(a[1..]);
    }
  }

  lemma {:induction false} StrLtTransitive(a: string, b: string, c: string)
    requires StrLt(a, b) && StrLt(b, c)
    ensures StrLt(a, c)
  {
    if a != [] && b != [] && c != [] && a[0] == b[0] && b[0] == c[0] {
      StrLtTransitive(a[1..], b[1..], c[1..]);
    }
  }

  lemma {:induction false} StrLtConnected(a: string, b: string)
    requires a != b
    ensures StrLt(a, b) || StrLt(b, a)
  {
    if a != [] && b != [] && a[0] == b[0] {
      assert a == [a[0]] + a[1..] && b == [b[0]] + b[1..];
      StrLtConnected(a[1..], b[1..]);
    }
  }

  /** Python's `<` on strings, as a function value. */
  function StringLt(): (string, string) -> bool
  {
    (a: string, b: string) => StrLt(a, b)
  }

  lemma StringLtTotal()
    ensures StrictTotalOrder(StringLt())
  {
    forall a, b, c | StrLt(a, b) && StrLt(b, c) ensures StrLt(a, c) {
      StrLtTransitive(a, b, c);
    }
    forall a ensures !StrLt(a, a) {
      StrLtIrreflexive(a);
    }
    forall a, b | a != b ensures StrLt(a, b) || StrLt(b, a) {
      StrLtConnected(a, b);
    }
  }

  /** The reverse of Python's `<` on strings: ranking with it sorts strings ascending. */
  function StringGt(): (string, string) -> bool
  {
    (a: string, b: string) => StrLt(b, a)
  }

  lemma StringGtTotal()
    ensures StrictTotalOrder(StringGt())
  {
    forall a, b, c | StrLt(b, a) && StrLt(c, b) ensures StrLt(c, a) {
      StrLtTransitive(c, b, a);
    }
    forall a ensures !StrLt(a, a) {
      StrLtIrreflexive(a);
    }
    forall a, b | a != b ensures StrLt(a, b) || StrLt(b, a) {
      StrLtConnected(a, b);
    }
  }

  /** With distinct keys, a ranking is strictly descending in its keys. */
  lemma RankedStrict<K(!new)>(keys: seq<K>, lt: (K, K) -> bool, s: seq<nat>)
    requires StrictTotalOrder(lt)
    requires RankedBy(keys, lt, s)
    requires forall i, j :: 0 <= i < j < |keys| ==> keys[i] != keys[j]
    ensures forall i, j :: 0 <= i < j < |s| ==> lt(keys[s[j]], keys[s[i]])
  {
    RankedDistinct(keys, lt, s);
    forall i, j | 0 <= i < j < |s| ensures lt(keys[s[j]], keys[s[i]]) {
      assert Above(keys, lt, s[i], s[j]);
      assert keys[s[i]] != keys[s[j]] by {
        if s[i] < s[j] {
          assert keys[s[i]] != keys[s[j]];
        } else {
          assert keys[s[j]] != keys[s[i]];
        }
      }
    }
  }

  /** Picks the elements of `xs` at the positions `order`. */
  function Pick<T>(xs: seq<T>, order: seq<nat>): (r: seq<T>)
    requires forall i :: 0 <= i < |order| ==> order[i] < |xs|
    ensures |r| == |order| && forall i :: 0 <= i < |order| ==> r[i] == xs[order[i]]
  {
    if order == [] then [] else [xs[order[0]]] + Pick(xs, order[1..])
  }

  /** Inserting position `p` into an order adds exactly `xs[p]` to what the order picks. */
  lemma {:induction false} PickInsert<T, K>(xs: seq<T>, keys: seq<K>, lt: (K, K) -> bool, p: nat, s: seq<nat>)
    requires |xs| == |keys| && p < |keys| && forall i :: 0 <= i < |s| ==> s[i] < |keys|
    ensures multiset(Pick(xs, Insert(keys, lt, p, s))) == multiset(Pick(xs, s)) + multiset{xs[p]}
  {
    if s != [] && !Above(keys, lt, p, s[0]) {
      PickInsert(xs, keys, lt, p, s[1..]);
      assert Insert(keys, lt, p, s) == [s[0]] + Insert(keys, lt, p, s[1..]);
    }
  }

  /** The first `n` positions in rank order are all below `n`. */
  lemma RankPrefixBound<K(!new)>(keys: seq<K>, lt: (K, K) -> bool, n: nat)
    requires StrictTotalOrder(lt) && n <= |keys|
    ensures forall i :: 0 <= i < |RankPrefix(keys, lt, n)| ==> RankPrefix(keys, lt, n)[i] < n
  {
    var r := RankPrefix(keys, lt, n);
    PositionsBound(n);
    forall i | 0 <= i < |r| ensures r[i] < n {
      assert r[i] in multiset(r);
    }
  }

  /** The first `n` positions in rank order pick exactly the first `n` elements, rearranged. */
  lemma {:induction false} PickRankPrefix<T, K(!new)>(xs: seq<T>, keys: seq<K>, lt: (K, K) -> bool, n: nat)
    requires StrictTotalOrder(lt)
    requires |xs| == |keys| && n <= |keys|
    ensures forall i :: 0 <= i < |RankPrefix(keys, lt, n)| ==> RankPrefix(keys, lt, n)[i] < n
    ensures multiset(Pick(xs, RankPrefix(keys, lt, n))) == multiset(xs[..n])
  {
    RankPrefixBound(keys, lt, n);
    if n > 0 {
      var s := RankPrefix(keys, lt, n - 1);
      PickRankPrefix(xs, keys, lt, n - 1);
      assert RankPrefix(keys, lt, n) == Insert(keys, lt, n - 1, s);
      PickInsert(xs, keys, lt, n - 1, s);
      MultisetPrefix(xs, n);
    }
  }

  /** One more element of the prefix adds that element to its multiset. */
  lemma MultisetPrefix<T>(xs: seq<T>, n: nat)
    requires 0 < n <= |xs|
    ensures multiset(xs[..n]) == multiset(xs[..n - 1]) + multiset{xs[n - 1]}
  {
    assert xs[..n] == xs[..n - 1] + [xs[n - 1]];
  }

  /** The stable descending sort on reals is a permutation of its input. */
  lemma SortRealsPermutation<T>(xs: seq<T>, keys: seq<real>)
    requires |keys| == |xs|
    ensures multiset(SortReals(xs, keys)) == multiset(xs)
  {
    RealLtTotal();
    PickRankPrefix(xs, keys, RealLt(), |keys|);
    assert xs[..|keys|] == xs;
  }

  /** The stable descending sort is a permutation of its input. */
  lemma SortDescPermutation<T, K(!new)>(xs: seq<T>, keys: seq<K>, lt: (K, K) -> bool)
    requires StrictTotalOrder(lt)
    requires |keys| == |xs|
    ensures multiset(SortDesc(xs, keys, lt)) == multiset(xs)
  {
    PickRankPrefix(xs, keys, lt, |keys|);
    assert xs[..|keys|] == xs;
  }

  /** `sorted(xs, key=..., reverse=True)`, with the keys given position by position. */
  function SortDesc<T, K(!new)>(xs: seq<T>, keys: seq<K>, lt: (K, K) -> bool): (r: seq<T>)
    requires StrictTotalOrder(lt)
    requires |keys| == |xs|
    ensures |r| == |xs|
  {
    Pick(xs, Rank(keys, lt))
  }
}
