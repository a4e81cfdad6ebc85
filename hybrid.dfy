/**
 * `backend/rag/hybrid.py`: merges vector and lexical hits by chunk identity
 * into `alpha * vector + (1 - alpha) * lexical`, then keeps the best `k`.
 * Scores are used as they come, without normalisation.
 *
 * A chunk's identity (`id(c)` in Python) is its corpus position, the `id`
 * of a hit.
 */
module Hybrid {
  import opened Common
  import Sorting
  import Text

  /**
   * The two dictionaries the merge fills: identities in the order they were
   * first inserted, the combined score of each, and the item last seen for each.
   */
  datatype Combined<T> = Combined(order: seq<nat>, score: map<nat, real>, item: map<nat, T>)

  /** The empty dictionaries. */
  function Empty<T>(): Combined<T>
  {
    Combined([], map[], map[])
  }

  /** `combined[key] = combined.get(key, 0.0) + w * s; mapping[key] = c`. */
  function Add<T>(c: Combined<T>, h: Hit<T>, w: real): Combined<T>
  {
    if h.id in c.score then Combined(c.order, c.score[h.id := c.score[h.id] + w * h.score], c.item[h.id := h.item])
    else Combined(c.order + [h.id], c.score[h.id := 0.0 + w * h.score], c.item[h.id := h.item])
  }

  /** One loop over a list of hits, each weighted by `w`. */
  function Accumulate<T>(c: Combined<T>, hits: seq<Hit<T>>, w: real): Combined<T>
  {
    if hits == [] then c else Add(Accumulate(c, hits[..|hits| - 1], w), hits[|hits| - 1], w)
  }

  /** Both loops: the vector hits weighted by `alpha`, then the lexical ones by `1 - alpha`. */
  function Combine<T>(vec: seq<Hit<T>>, lex: seq<Hit<T>>, alpha: real): Combined<T>
  {
    Accumulate(Accumulate(Empty(), vec, alpha), lex, 1.0 - alpha)
  }

  // ---------------------------------------------------------------------------
  // Reference definitions
  // ---------------------------------------------------------------------------

  /** The sum of the scores of the hits for identity `id`; 0 when there are none. */
  function Weighted<T>(hits: seq<Hit<T>>, id: nat): real
  {
    if hits == [] then 0.0
    else Weighted(hits[..|hits| - 1], id) + (if hits[|hits| - 1].id == id then hits[|hits| - 1].score else 0.0)
  }

  /** The identities of some hits, in order. */
  function Ids<T>(hits: seq<Hit<T>>): (r: seq<nat>)
    ensures |r| == |hits| && forall i :: 0 <= i < |hits| ==> r[i] == hits[i].id
  {
    if hits == [] then [] else Ids(hits[..|hits| - 1]) + [hits[|hits| - 1].id]
  }

  /** The distinct elements of `xs`, each where it first occurs. */
  function Dedup(xs: seq<nat>): seq<nat>
  {
    if xs == [] then []
    else Dedup(xs[..|xs| - 1]) + (if xs[|xs| - 1] in xs[..|xs| - 1] then [] else [xs[|xs| - 1]])
  }

  /** `Dedup` keeps exactly the elements of `xs`, each once. */
  lemma {:induction false} DedupSpec(xs: seq<nat>)
    ensures forall x :: x in Dedup(xs) <==> x in xs
    ensures forall i, j :: 0 <= i < j < |Dedup(xs)| ==> Dedup(xs)[i] != Dedup(xs)[j]
    decreases |xs|
  {
    if xs != [] {
      DedupSpec(xs[..|xs| - 1]);
      assert xs == xs[..|xs| - 1] + [xs[|xs| - 1]];
    }
  }

  /** The dictionaries agree on their keys, and the order lists each key once. */
  ghost predicate Good<T>(c: Combined<T>)
  {
    && (forall i, j :: 0 <= i < j < |c.order| ==> c.order[i] != c.order[j])
    && (forall x :: x in c.order <==> x in c.score)
    && (forall x :: x in c.score <==> x in c.item)
  }

  /** A loop keeps the dictionaries in step and adds exactly the identities of its hits. */
  lemma {:induction false} AccumulateKeys<T>(c: Combined<T>, hits: seq<Hit<T>>, w: real)
    requires Good(c)
    ensures Good(Accumulate(c, hits, w))
    ensures forall x :: x in Accumulate(c, hits, w).score <==> x in c.score || x in Ids(hits)
    decreases |hits|
  {
    if hits != [] {
      var init := hits[..|hits| - 1];
      AccumulateKeys(c, init, w);
      assert Ids(hits) == Ids(init) + [hits[|hits| - 1].id];
    }
  }

  /** A loop appends the new identities where they first appear, after those already present. */
  lemma {:induction false} AccumulateOrder<T>(c: Combined<T>, hits: seq<Hit<T>>, w: real)
    requires Good(c)
    ensures Accumulate(c, hits, w).order == Dedup(c.order + Ids(hits))
    decreases |hits|
  {
    if hits == [] {
      DedupOfDistinct(c.order);
      assert c.order + Ids(hits) == c.order;
    } else {
      var init, h := hits[..|hits| - 1], hits[|hits| - 1];
      AccumulateOrder(c, init, w);
      AccumulateKeys(c, init, w);
      assert Ids(hits) == Ids(init) + [h.id];
      var ys := c.order + Ids(init);
      assert c.order + Ids(hits) == ys + [h.id];
      DedupSnoc(ys, h.id);
      AddOrder(Accumulate(c, init, w), h, w);
    }
  }

  /** One more element: kept at the end unless it was seen. */
  lemma DedupSnoc(ys: seq<nat>, y: nat)
    ensures Dedup(ys + [y]) == Dedup(ys) + (if y in ys then [] else [y])
  {
    assert (ys + [y])[..|ys|] == ys;
  }

  /** Adding a hit appends its identity to the order exactly when it is new. */
  lemma AddOrder<T>(c: Combined<T>, h: Hit<T>, w: real)
    ensures Add(c, h, w).order == c.order + (if h.id in c.score then [] else [h.id])
  {
  }

  /** The score an identity had before a loop: 0 when it was absent. */
  function Base<T>(c: Combined<T>, x: nat): real
  {
    if x in c.score then c.score[x] else 0.0
  }

  /** The sum of `w` times each score of the hits for identity `id`, in the order the loop adds them. */
  function WeightedBy<T>(hits: seq<Hit<T>>, id: nat, w: real): real
  {
    if hits == [] then 0.0
    else WeightedBy(hits[..|hits| - 1], id, w) + (if hits[|hits| - 1].id == id then w * hits[|hits| - 1].score else 0.0)
  }

  /** Adding the weighted scores one by one is weighting their sum. */
  lemma {:induction false} WeightedByScales<T>(hits: seq<Hit<T>>, id: nat, w: real)
    ensures WeightedBy(hits, id, w) == w * Weighted(hits, id)
    decreases |hits|
  {
    if hits != [] {
      var init, h := hits[..|hits| - 1], hits[|hits| - 1];
      WeightedByScales(init, id, w);
      if h.id == id {
        Distributes(w, Weighted(init, id), h.score);
      }
    }
  }

  lemma Distributes(w: real, a: real, b: real)
    ensures w * (a + b) == w * a + w * b
  {
  }

  /** A loop adds the weighted scores of an identity's hits to its score. */
  lemma {:induction false} AccumulateScore<T>(c: Combined<T>, hits: seq<Hit<T>>, w: real)
    requires Good(c)
    ensures forall x :: x in Accumulate(c, hits, w).score ==>
      Accumulate(c, hits, w).score[x] == Base(c, x) + WeightedBy(hits, x, w)
    decreases |hits|
  {
    if hits != [] {
      var init, h := hits[..|hits| - 1], hits[|hits| - 1];
      AccumulateScore(c, init, w);
      AccumulateKeys(c, init, w);
      var p, r := Accumulate(c, init, w), Accumulate(c, hits, w);
      assert r == Add(p, h, w);
      forall x | x in r.score ensures r.score[x] == Base(c, x) + WeightedBy(hits, x, w) {
        if x == h.id && x !in p.score {
          WeightedByWithout(init, x, w);
        }
      }
    }
  }

  /** An identity no hit carries sums to zero. */
  lemma {:induction false} WeightedByWithout<T>(hits: seq<Hit<T>>, id: nat, w: real)
    requires id !in Ids(hits)
    ensures WeightedBy(hits, id, w) == 0.0
    decreases |hits|
  {
    if hits != [] {
      assert Ids(hits) == Ids(hits[..|hits| - 1]) + [hits[|hits| - 1].id];
      WeightedByWithout(hits[..|hits| - 1], id, w);
    }
  }

  /** A sequence without repetitions is its own `Dedup`. */
  lemma {:induction false} DedupOfDistinct(xs: seq<nat>)
    requires forall i, j :: 0 <= i < j < |xs| ==> xs[i] != xs[j]
    ensures Dedup(xs) == xs
    decreases |xs|
  {
    if xs != [] {
      var init := xs[..|xs| - 1];
      DedupOfDistinct(init);
      assert xs[|xs| - 1] !in init;
      assert xs == init + [xs[|xs| - 1]];
    }
  }

  /** After both loops the dictionaries are in step and hold the identities of both lists. */
  lemma CombineKeys<T>(vec: seq<Hit<T>>, lex: seq<Hit<T>>, alpha: real)
    ensures Good(Combine(vec, lex, alpha))
    ensures forall x :: x in Combine(vec, lex, alpha).score <==> x in Ids(vec) || x in Ids(lex)
  {
    var e: Combined<T> := Empty();
    AccumulateKeys(e, vec, alpha);
    AccumulateKeys(Accumulate(e, vec, alpha), lex, 1.0 - alpha);
  }

  /** Every item a loop leaves in the dictionary was there before or is the item of one of its hits. */
  lemma {:induction false} AccumulateItems<T>(c: Combined<T>, hits: seq<Hit<T>>, w: real)
    ensures forall x :: x in Accumulate(c, hits, w).item ==>
      (x in c.item && Accumulate(c, hits, w).item[x] == c.item[x])
      || (exists h :: h in hits && h.id == x && h.item == Accumulate(c, hits, w).item[x])
    decreases |hits|
  {
    if hits != [] {
      var init, h := hits[..|hits| - 1], hits[|hits| - 1];
      AccumulateItems(c, init, w);
      var a := Accumulate(c, init, w);
      var r := Add(a, h, w);
      assert h in hits;
      forall x | x in r.item && x != h.id
        ensures (x in c.item && r.item[x] == c.item[x]) || (exists g :: g in hits && g.id == x && g.item == r.item[x])
      {
        assert r.item[x] == a.item[x];
        if !(x in c.item && a.item[x] == c.item[x]) {
          var g :| g in init && g.id == x && g.item == a.item[x];
          assert g in hits;
        }
      }
    }
  }

  /** Every item after both loops is the item of a vector or lexical hit with that identity. */
  lemma CombineItems<T>(vec: seq<Hit<T>>, lex: seq<Hit<T>>, alpha: real)
    ensures forall x :: x in Combine(vec, lex, alpha).item ==>
      exists h :: h in vec + lex && h.id == x && h.item == Combine(vec, lex, alpha).item[x]
  {
    var e: Combined<T> := Empty();
    var a := Accumulate(e, vec, alpha);
    AccumulateItems(e, vec, alpha);
    AccumulateItems(a, lex, 1.0 - alpha);
    var c := Combine(vec, lex, alpha);
    forall x | x in c.item ensures exists h :: h in vec + lex && h.id == x && h.item == c.item[x] {
      if x in a.item && c.item[x] == a.item[x] {
        var h :| h in vec && h.id == x && h.item == a.item[x];
        assert h in vec + lex;
      } else {
        var h :| h in lex && h.id == x && h.item == c.item[x];
        assert h in vec + lex;
      }
    }
  }

  /**
   * After both loops the identities are the distinct ones of the vector then
   * the lexical hits, in first-appearance order.
   */
  lemma CombineOrder<T>(vec: seq<Hit<T>>, lex: seq<Hit<T>>, alpha: real)
    ensures Combine(vec, lex, alpha).order == Dedup(Ids(vec) + Ids(lex))
  {
    VectorOrder(vec, alpha);
    LexicalOrder(Accumulate(Empty(), vec, alpha), Ids(vec), lex, 1.0 - alpha);
  }

  /** After the vector loop the dictionaries are in step and list the distinct vector identities, in order. */
  lemma VectorOrder<T>(vec: seq<Hit<T>>, alpha: real)
    ensures Good(Accumulate(Empty(), vec, alpha))
    ensures Accumulate(Empty(), vec, alpha).order == Dedup(Ids(vec))
  {
    var e: Combined<T> := Empty();
    AccumulateKeys(e, vec, alpha);
    AccumulateOrder(e, vec, alpha);
    assert e.order + Ids(vec) == Ids(vec);
  }

  /** The lexical loop, after a vector loop whose order is `Dedup(a)`. */
  lemma LexicalOrder<T>(v: Combined<T>, a: seq<nat>, lex: seq<Hit<T>>, w: real)
    requires Good(v) && v.order == Dedup(a)
    ensures Accumulate(v, lex, w).order == Dedup(a + Ids(lex))
  {
    AccumulateOrder(v, lex, w);
    DedupTwice(a, Ids(lex));
  }

  /**
   * After both loops each identity's score is the sum of `alpha` times each of
   * its vector scores plus the sum of `1 - alpha` times each of its lexical
   * scores (`WeightedByScales` turns each sum into a weight times a sum).
   */
  lemma CombineScore<T>(vec: seq<Hit<T>>, lex: seq<Hit<T>>, alpha: real)
    ensures forall x :: x in Combine(vec, lex, alpha).score ==> Combine(vec, lex, alpha).score[x] == MergedScore(vec, lex, alpha, x)
  {
    var e: Combined<T> := Empty();
    AccumulateKeys(e, vec, alpha);
    AccumulateScore(e, vec, alpha);
    var v := Accumulate(e, vec, alpha);
    AccumulateScore(v, lex, 1.0 - alpha);
    forall x | x in Combine(vec, lex, alpha).score && x !in v.score
      ensures WeightedBy(vec, x, alpha) == 0.0
    {
      WeightedByWithout(vec, x, alpha);
    }
  }

  /** The combined score of identity `x`: its vector scores weighted by `alpha`, plus its lexical scores weighted by `1 - alpha`. */
  function MergedScore<T>(vec: seq<Hit<T>>, lex: seq<Hit<T>>, alpha: real, x: nat): real
  {
    WeightedBy(vec, x, alpha) + WeightedBy(lex, x, 1.0 - alpha)
  }

  /** Deduplicating a prefix first changes nothing. */
  lemma {:induction false} DedupTwice(xs: seq<nat>, ys: seq<nat>)
    ensures Dedup(Dedup(xs) + ys) == Dedup(xs + ys)
    decreases |ys|
  {
    if ys == [] {
      DedupSpec(xs);
      DedupOfDistinct(Dedup(xs));
      assert Dedup(xs) + ys == Dedup(xs);
      assert xs + ys == xs;
    } else {
      var init, y := ys[..|ys| - 1], ys[|ys| - 1];
      DedupTwice(xs, init);
      DedupSpec(xs);
      assert Dedup(xs) + ys == (Dedup(xs) + init) + [y];
      assert xs + ys == (xs + init) + [y];
      assert (Dedup(xs) + init) + [y] == Dedup(xs) + ys;
    }
  }

  // ---------------------------------------------------------------------------
  // Ranking
  // ---------------------------------------------------------------------------

  /** The combined scores in insertion order: the values `sorted` compares. */
  function ScoresInOrder<T>(c: Combined<T>): (r: seq<real>)
    requires forall x :: x in c.order ==> x in c.score
    ensures |r| == |c.order| && forall i :: 0 <= i < |r| ==> r[i] == c.score[c.order[i]]
  {
    seq(|c.order|, i requires 0 <= i < |c.order| => c.score[c.order[i]])
  }

  /** `[(mapping[i], score) for i, score in ranked]` for the positions `ranked` of the insertion order. */
  function HitsOf<T>(c: Combined<T>, ranked: seq<nat>): (r: seq<Hit<T>>)
    requires Good(c)
    requires forall i :: 0 <= i < |ranked| ==> ranked[i] < |c.order|
    ensures |r| == |ranked|
    ensures forall i :: 0 <= i < |ranked| ==>
      r[i] == Hit(c.order[ranked[i]], c.item[c.order[ranked[i]]], c.score[c.order[ranked[i]]])
  {
    if ranked == [] then []
    else
      assert c.order[ranked[0]] in c.order;
      [Hit(c.order[ranked[0]], c.item[c.order[ranked[0]]], c.score[c.order[ranked[0]]])] + HitsOf(c, ranked[1..])
  }

  /** The first `k` positions of the insertion order by descending combined score, ties in insertion order. */
  function Ranked<T>(c: Combined<T>, k: int): (r: seq<nat>)
    requires Good(c)
    ensures forall i :: 0 <= i < |r| ==> r[i] < |c.order|
    ensures 0 <= k ==> |r| == Text.Min(k, |c.order|)
    ensures Sorting.RankedBy(ScoresInOrder(c), Sorting.RealLt(), r)
  {
    var order := Sorting.RankReals(ScoresInOrder(c));
    var r := Prefix(order, k);
    assert forall i :: 0 <= i < |r| ==> r[i] == order[i];
    r
  }

  /** What `hybrid_merge` returns. */
  function Merged<T>(vec: seq<Hit<T>>, lex: seq<Hit<T>>, alpha: real, k: int): seq<Hit<T>>
  {
    var c := Combine(vec, lex, alpha);
    CombineKeys(vec, lex, alpha);
    HitsOf(c, Ranked(c, k))
  }

  /** One `for n in hits: combined[key] = combined.get(key, 0.0) + w * n.score` loop (with the item map). */
  method AddAll<T>(c0: Combined<T>, hits: seq<Hit<T>>, w: real) returns (c: Combined<T>)
    ensures c == Accumulate(c0, hits, w)
  {
    c := c0;
    for i := 0 to |hits|
      invariant c == Accumulate(c0, hits[..i], w)
    {
      assert hits[..i + 1][..i] == hits[..i];
      c := Add(c, hits[i], w);
    }
    assert hits[..|hits|] == hits;
  }

  /** `hybrid_merge`. */
  method HybridMerge<T>(vec: seq<Hit<T>>, lex: seq<Hit<T>>, alpha: real, k: int) returns (out: seq<Hit<T>>)
    ensures out == Merged(vec, lex, alpha, k)
  {
    var c := AddAll(Empty(), vec, alpha);
    c := AddAll(c, lex, 1.0 - alpha);
    MergedOf(vec, lex, alpha, k, c);
    out := HitsOf(c, Ranked(c, k));
  }

  /** The merge read off the dictionaries both loops built. */
  lemma MergedOf<T>(vec: seq<Hit<T>>, lex: seq<Hit<T>>, alpha: real, k: int, c: Combined<T>)
    requires c == Accumulate(Accumulate(Empty(), vec, alpha), lex, 1.0 - alpha)
    ensures Good(c) && HitsOf(c, Ranked(c, k)) == Merged(vec, lex, alpha, k)
  {
    CombineKeys(vec, lex, alpha);
  }

  // ---------------------------------------------------------------------------
  // Properties of the merge
  // ---------------------------------------------------------------------------

  /** The hits at ranked positions name distinct identities. */
  lemma RankedHitsDistinct<T>(c: Combined<T>, k: int)
    requires Good(c)
    ensures var r := HitsOf(c, Ranked(c, k)); forall i, j :: 0 <= i < j < |r| ==> r[i].id != r[j].id
  {
    Sorting.RealLtTotal();
    Sorting.RankedDistinct(ScoresInOrder(c), Sorting.RealLt(), Ranked(c, k));
  }

  /** The hits at ranked positions descend by score, equal scores in insertion order. */
  lemma RankedHitsOrder<T>(c: Combined<T>, k: int)
    requires Good(c)
    ensures var r, ranked := HitsOf(c, Ranked(c, k)), Ranked(c, k);
      forall i, j :: 0 <= i < j < |r| ==> r[i].score > r[j].score || (r[i].score == r[j].score && ranked[i] < ranked[j])
  {
    var ranked := Ranked(c, k);
    forall i, j | 0 <= i < j < |ranked| ensures Sorting.Above(ScoresInOrder(c), Sorting.RealLt(), ranked[i], ranked[j]) {
    }
  }

  /** `min(k, n)` hits for `k >= 0`, where `n` counts the distinct identities of both lists. */
  lemma MergedLength<T>(vec: seq<Hit<T>>, lex: seq<Hit<T>>, alpha: real, k: int)
    requires 0 <= k
    ensures |Merged(vec, lex, alpha, k)| == Text.Min(k, |Dedup(Ids(vec) + Ids(lex))|)
  {
    CombineKeys(vec, lex, alpha);
    CombineOrder(vec, lex, alpha);
  }

  /** Every hit names an identity from either list, and none twice. */
  lemma MergedIds<T>(vec: seq<Hit<T>>, lex: seq<Hit<T>>, alpha: real, k: int)
    ensures forall i :: 0 <= i < |Merged(vec, lex, alpha, k)| ==> Merged(vec, lex, alpha, k)[i].id in Dedup(Ids(vec) + Ids(lex))
    ensures forall i, j :: 0 <= i < j < |Merged(vec, lex, alpha, k)| ==> Merged(vec, lex, alpha, k)[i].id != Merged(vec, lex, alpha, k)[j].id
  {
    CombineKeys(vec, lex, alpha);
    CombineOrder(vec, lex, alpha);
    RankedHitsDistinct(Combine(vec, lex, alpha), k);
  }

  /**
   * Each hit is scored `alpha` times each of its vector scores plus `1 - alpha`
   * times each of its lexical scores; a list it is absent from adds 0.
   */
  lemma MergedScores<T>(vec: seq<Hit<T>>, lex: seq<Hit<T>>, alpha: real, k: int)
    ensures var r := Merged(vec, lex, alpha, k);
      forall i :: 0 <= i < |r| ==> r[i].score == MergedScore(vec, lex, alpha, r[i].id)
  {
    CombineKeys(vec, lex, alpha);
    CombineScore(vec, lex, alpha);
    var c := Combine(vec, lex, alpha);
    var ranked := Ranked(c, k);
    forall i | 0 <= i < |ranked| ensures c.order[ranked[i]] in c.score {
      assert c.order[ranked[i]] in c.order;
    }
  }

  /**
   * The hits are sorted by non-increasing score; equal scores keep the order
   * in which their identities first appeared (vector list first, then
   * lexical-only identities in lexical order).
   */
  lemma MergedOrder<T>(vec: seq<Hit<T>>, lex: seq<Hit<T>>, alpha: real, k: int)
    ensures var r, ids := Merged(vec, lex, alpha, k), Dedup(Ids(vec) + Ids(lex));
      forall i, j :: 0 <= i < j < |r| ==>
        r[i].score > r[j].score
        || (r[i].score == r[j].score && exists p, q :: 0 <= p < q < |ids| && ids[p] == r[i].id && ids[q] == r[j].id)
  {
    CombineKeys(vec, lex, alpha);
    CombineOrder(vec, lex, alpha);
    var c := Combine(vec, lex, alpha);
    RankedHitsOrder(c, k);
    var ranked := Ranked(c, k);
    var r := Merged(vec, lex, alpha, k);
    forall i, j | 0 <= i < j < |r| && r[i].score == r[j].score && ranked[i] < ranked[j]
      ensures exists p, q :: 0 <= p < q < |c.order| && c.order[p] == r[i].id && c.order[q] == r[j].id
    {
      assert c.order[ranked[i]] == r[i].id && c.order[ranked[j]] == r[j].id;
    }
  }

  /**
   * With no lexical hits and distinct vector identities, the result is the
   * vector hits with their scores scaled by `alpha`, in stable descending order.
   */
  lemma MergedVectorOnly<T>(vec: seq<Hit<T>>, alpha: real, k: int)
    requires forall i, j :: 0 <= i < j < |vec| ==> vec[i].id != vec[j].id
    ensures Merged(vec, [], alpha, k) == Prefix(Sorting.SortReals(ScaleAll(vec, alpha), Scores(ScaleAll(vec, alpha))), k)
  {
    CombineKeys(vec, [], alpha);
    VectorOnlyCombined(vec, alpha);
    HitsOfSorted(Combine(vec, [], alpha), ScaleAll(vec, alpha), k);
  }

  /** With no lexical hits and distinct vector identities, the dictionaries hold the scaled vector hits in order. */
  lemma VectorOnlyCombined<T>(vec: seq<Hit<T>>, alpha: real)
    requires forall i, j :: 0 <= i < j < |vec| ==> vec[i].id != vec[j].id
    ensures |Combine(vec, [], alpha).order| == |vec|
    ensures forall i :: 0 <= i < |vec| ==>
      && Combine(vec, [], alpha).order[i] == vec[i].id
      && vec[i].id in Combine(vec, [], alpha).score
      && Combine(vec, [], alpha).score[vec[i].id] == alpha * vec[i].score
      && vec[i].id in Combine(vec, [], alpha).item
      && Combine(vec, [], alpha).item[vec[i].id] == vec[i].item
  {
    VectorOnlyOrder(vec, alpha);
    forall i | 0 <= i < |vec|
      ensures vec[i].id in Combine(vec, [], alpha).score && Combine(vec, [], alpha).score[vec[i].id] == alpha * vec[i].score
      ensures vec[i].id in Combine(vec, [], alpha).item && Combine(vec, [], alpha).item[vec[i].id] == vec[i].item
    {
      VectorOnlyEntry(vec, alpha, i);
    }
  }

  /** With no lexical hits and distinct vector identities, the insertion order is the vector identities. */
  lemma VectorOnlyOrder<T>(vec: seq<Hit<T>>, alpha: real)
    requires forall i, j :: 0 <= i < j < |vec| ==> vec[i].id != vec[j].id
    ensures Combine(vec, [], alpha).order == Ids(vec)
  {
    CombineOrder(vec, [], alpha);
    DedupOfDistinct(Ids(vec));
    var none: seq<Hit<T>> := [];
    assert Ids(vec) + Ids(none) == Ids(vec);
  }

  /** With no lexical hits and distinct vector identities, vector hit `i` keeps its item and its scaled score. */
  lemma VectorOnlyEntry<T>(vec: seq<Hit<T>>, alpha: real, i: nat)
    requires forall i, j :: 0 <= i < j < |vec| ==> vec[i].id != vec[j].id
    requires i < |vec|
    ensures vec[i].id in Combine(vec, [], alpha).score && Combine(vec, [], alpha).score[vec[i].id] == alpha * vec[i].score
    ensures vec[i].id in Combine(vec, [], alpha).item && Combine(vec, [], alpha).item[vec[i].id] == vec[i].item
  {
    CombineKeys(vec, [], alpha);
    CombineScore(vec, [], alpha);
    assert vec[i].id in Ids(vec);
    WeightedByDistinct(vec, alpha, i);
    ItemDistinct(vec, alpha, i);
  }

  /**
   * When the dictionaries hold exactly the hits `hs`, in order, the ranked hits
   * are `hs` stably sorted by descending score, cut as `[:k]` does.
   */
  lemma HitsOfSorted<T>(c: Combined<T>, hs: seq<Hit<T>>, k: int)
    requires Good(c) && |c.order| == |hs|
    requires forall i :: 0 <= i < |hs| ==>
      c.order[i] == hs[i].id && c.order[i] in c.score && c.score[c.order[i]] == hs[i].score && c.item[c.order[i]] == hs[i].item
    ensures HitsOf(c, Ranked(c, k)) == Prefix(Sorting.SortReals(hs, Scores(hs)), k)
  {
    RankedFromHits(c, hs, k);
    HitsOfOrder(c, hs, Ranked(c, k));
    PrefixPick(hs, Sorting.RankReals(Scores(hs)), k);
  }

  /** The ranking of the dictionaries is the ranking of the scores of `hs`. */
  lemma RankedFromHits<T>(c: Combined<T>, hs: seq<Hit<T>>, k: int)
    requires Good(c) && |c.order| == |hs|
    requires forall i :: 0 <= i < |hs| ==> c.order[i] in c.score && c.score[c.order[i]] == hs[i].score
    ensures Ranked(c, k) == Prefix(Sorting.RankReals(Scores(hs)), k)
  {
    assert ScoresInOrder(c) == Scores(hs);
  }

  /** Positions of the insertion order read back as the hits `hs` at those positions. */
  lemma HitsOfOrder<T>(c: Combined<T>, hs: seq<Hit<T>>, ranked: seq<nat>)
    requires Good(c) && |c.order| == |hs|
    requires forall i :: 0 <= i < |hs| ==>
      c.order[i] == hs[i].id && c.order[i] in c.score && c.score[c.order[i]] == hs[i].score && c.item[c.order[i]] == hs[i].item
    requires forall i :: 0 <= i < |ranked| ==> ranked[i] < |c.order|
    ensures HitsOf(c, ranked) == Sorting.Pick(hs, ranked)
  {
  }

  /** `[:k]` of a picking is the picking of `[:k]` of the positions. */
  lemma PrefixPick<T>(xs: seq<T>, order: seq<nat>, k: int)
    requires forall i :: 0 <= i < |order| ==> order[i] < |xs|
    ensures forall i :: 0 <= i < |Prefix(order, k)| ==> Prefix(order, k)[i] < |xs|
    ensures Sorting.Pick(xs, Prefix(order, k)) == Prefix(Sorting.Pick(xs, order), k)
  {
    PrefixSameLength(order, Sorting.Pick(xs, order), k);
  }

  /** `[:k]` of two sequences of one length keeps as many elements of each. */
  lemma PrefixSameLength<A, B>(s: seq<A>, t: seq<B>, k: int)
    requires |s| == |t|
    ensures |Prefix(s, k)| == |Prefix(t, k)|
  {
  }

  /** The hits with scores scaled by `w`. */
  function ScaleAll<T>(hits: seq<Hit<T>>, w: real): (r: seq<Hit<T>>)
    ensures |r| == |hits| && forall i :: 0 <= i < |hits| ==> r[i] == Hit(hits[i].id, hits[i].item, w * hits[i].score)
  {
    if hits == [] then [] else [Hit(hits[0].id, hits[0].item, w * hits[0].score)] + ScaleAll(hits[1..], w)
  }

  /** The scores of some hits, in order. */
  function Scores<T>(hits: seq<Hit<T>>): (r: seq<real>)
    ensures |r| == |hits| && forall i :: 0 <= i < |hits| ==> r[i] == hits[i].score
  {
    if hits == [] then [] else [hits[0].score] + Scores(hits[1..])
  }

  /** With distinct identities, an identity's weighted sum is that of its one hit. */
  lemma {:induction false} WeightedByDistinct<T>(hits: seq<Hit<T>>, w: real, i: nat)
    requires i < |hits|
    requires forall p, q :: 0 <= p < q < |hits| ==> hits[p].id != hits[q].id
    ensures WeightedBy(hits, hits[i].id, w) == w * hits[i].score
    decreases |hits|
  {
    var init := hits[..|hits| - 1];
    if i < |hits| - 1 {
      WeightedByDistinct(init, w, i);
    } else {
      WeightedByWithout(init, hits[i].id, w);
    }
  }

  /** With distinct identities, the item kept for an identity is that of its one hit. */
  lemma {:induction false} ItemDistinct<T>(hits: seq<Hit<T>>, w: real, i: nat)
    requires i < |hits|
    requires forall p, q :: 0 <= p < q < |hits| ==> hits[p].id != hits[q].id
    ensures var c := Accumulate(Empty(), hits, w); hits[i].id in c.item && c.item[hits[i].id] == hits[i].item
    decreases |hits|
  {
    var init := hits[..|hits| - 1];
    AccumulateKeys(Empty(), init, w);
    if i < |hits| - 1 {
      ItemDistinct(init, w, i);
    }
  }
}
