/**
 * `core/retrieve.py`: the LlamaIndex-side retrieval. Vector and BM25 node
 * hits are merged by node identity as in `Hybrid`, each merged score is
 * multiplied by a freshness weight from the node's `dt_iso`, and the result
 * is sorted and cut to `kN`. A separate filter keeps spend transactions of
 * the current month.
 *
 * The clock and `exp` are parameters: `decay(dt)` stands for the exact value
 * of `exp(-lam * age_days)` with the age measured from the current time.
 *
 * `_parse_dt` is `fromisoformat` alone, so for the freshness weight the
 * `Parser` argument keeps the text's own wall-clock fields; the spend filter
 * calls `astimezone(timezone.utc)`, so there it gives the UTC fields, a text
 * without offset being read as UTC rather than in local time.
 */
module Retrieve {
  import opened Common
  import Sorting
  import Text
  import Banking
  import Hybrid
  import Indexes

  /** `exp(-lam * age_days)` for a parsed moment, the age taken from the current time. */
  type Decay = Timestamp -> real

  /**
   * Whether `fromisoformat` gives an aware moment, one with a UTC offset, for
   * a text (after a trailing `Z` becomes `+00:00`). A date without an offset,
   * such as "2024-09-25", gives a naive one.
   */
  type Aware = string -> bool

  /**
   * `2^1024 - 2^970`: the least exact value that a double rounds to infinity,
   * halfway between the largest finite double `(2 - 2^-52) * 2^1023` and
   * `2^1024`. `math.exp` raises OverflowError for a result this large.
   */
  const ExpOverflow: real := 179769313486231580793728971405303415079934132710037826936173778980444968292764750946649017977587207096330286416692887910946555547851940402630657488671505820681908902000708383676273854845817711531764475730270069855571366959622842914819860834936475292719074168444365510704342711559699508093042880177904174497792.0

  /**
   * `_freshness_weight` raises: with `lam > 0` and a `dt_iso` that parses,
   * either the moment is naive, so `datetime.now(timezone.utc) - dt` raises
   * TypeError, or it lies so far in the future that `exp(-lam * age_days)`
   * raises OverflowError (for instance "9999-12-31T23:59:59Z" with `lam` 0.01).
   */
  predicate WeightRaises(dtIso: Value, lam: real, parse: Parser, aware: Aware, decay: Decay)
  {
    && Truthy(dtIso) && lam > 0.0 && Banking.ParseDt(parse, dtIso).Some?
    && (!aware(dtIso.s) || decay(Banking.ParseDt(parse, dtIso).value) >= ExpOverflow)
  }

  /**
   * The value `_freshness_weight` returns when it does not raise: 1.0 when
   * `dt_iso` is missing or empty, when `lam <= 0` or when the text does not
   * parse; otherwise the decay, floored at 0.2.
   */
  function Weight(dtIso: Value, lam: real, parse: Parser, decay: Decay): (r: real)
    ensures 0.2 <= r
    ensures !Truthy(dtIso) || lam <= 0.0 || Banking.ParseDt(parse, dtIso).None? ==> r == 1.0
    ensures lam > 0.0 && Banking.ParseDt(parse, dtIso).Some? ==>
      decay(Banking.ParseDt(parse, dtIso).value) <= r && (r == 0.2 || r == decay(Banking.ParseDt(parse, dtIso).value))
  {
    if !Truthy(dtIso) || lam <= 0.0 then 1.0
    else
      match Banking.ParseDt(parse, dtIso)
      case None => 1.0
      case Some(dt) => if decay(dt) < 0.2 then 0.2 else decay(dt)
  }

  /** `_freshness_weight`: None where it raises, else the weight. */
  function FreshnessWeight(dtIso: Value, lam: real, parse: Parser, aware: Aware, decay: Decay): (r: Option<real>)
    ensures r.None? <==> WeightRaises(dtIso, lam, parse, aware, decay)
    ensures r.Some? ==> r.value == Weight(dtIso, lam, parse, decay) && 0.2 <= r.value
    ensures !Truthy(dtIso) || lam <= 0.0 || Banking.ParseDt(parse, dtIso).None? ==> r == Some(1.0)
    ensures r.Some? && lam > 0.0 && Banking.ParseDt(parse, dtIso).Some? ==>
      decay(Banking.ParseDt(parse, dtIso).value) <= r.value
      && (r.value == 0.2 || r.value == decay(Banking.ParseDt(parse, dtIso).value))
  {
    if !Truthy(dtIso) || lam <= 0.0 then Some(1.0)
    else
      match Banking.ParseDt(parse, dtIso)
      case None => Some(1.0)
      case Some(dt) => if !aware(dtIso.s) || decay(dt) >= ExpOverflow then None else Some(Weight(dtIso, lam, parse, decay))
  }

  /** The weight of a node: from its metadata's `dt_iso` (nodes without one weigh 1.0). */
  function NodeWeight(n: Indexes.Node, lam: real, parse: Parser, decay: Decay): real
  {
    Weight(n.meta.DtIso(), lam, parse, decay)
  }

  /** `s * wt`: a merged score times its node's weight. */
  function Freshen(s: real, n: Indexes.Node, lam: real, parse: Parser, decay: Decay): real
  {
    s * NodeWeight(n, lam, parse, decay)
  }

  /** The merged scores, each multiplied by its node's weight; order and nodes unchanged. */
  function Reweigh(c: Hybrid.Combined<Indexes.Node>, lam: real, parse: Parser, decay: Decay): (r: Hybrid.Combined<Indexes.Node>)
    requires Hybrid.Good(c)
    ensures Hybrid.Good(r) && r.order == c.order && r.item == c.item && r.score.Keys == c.score.Keys
    ensures forall x :: x in r.score ==> x in c.score && r.score[x] == Freshen(c.score[x], c.item[x], lam, parse, decay)
  {
    Hybrid.Combined(c.order, map x | x in c.score :: Freshen(c.score[x], c.item[x], lam, parse, decay), c.item)
  }

  /** The `out` list before sorting: one weighted hit per identity, in insertion order. */
  function Freshened(c: Hybrid.Combined<Indexes.Node>, lam: real, parse: Parser, decay: Decay): (r: seq<Hit<Indexes.Node>>)
    requires Hybrid.Good(c)
    ensures |r| == |c.order|
    ensures forall i :: 0 <= i < |r| ==>
      c.order[i] in c.score && r[i] == Hit(c.order[i], c.item[c.order[i]], Freshen(c.score[c.order[i]], c.item[c.order[i]], lam, parse, decay))
  {
    seq(|c.order|, i requires 0 <= i < |c.order| =>
      assert c.order[i] in c.order;
      Hit(c.order[i], c.item[c.order[i]], Freshen(c.score[c.order[i]], c.item[c.order[i]], lam, parse, decay)))
  }

  /** Some merged node's weight raises. */
  predicate Raises(c: Hybrid.Combined<Indexes.Node>, lam: real, parse: Parser, aware: Aware, decay: Decay)
  {
    exists x :: x in c.item && WeightRaises(c.item[x].meta.DtIso(), lam, parse, aware, decay)
  }

  /** The sorted, cut list `hybrid_with_freshness` returns when no weight raises. */
  function WeightedRanking(vec: seq<Hit<Indexes.Node>>, bm: seq<Hit<Indexes.Node>>, alpha: real, lam: real, kN: int,
                           parse: Parser, decay: Decay): seq<Hit<Indexes.Node>>
  {
    Hybrid.CombineKeys(vec, bm, alpha);
    var ws := Freshened(Hybrid.Combine(vec, bm, alpha), lam, parse, decay);
    Prefix(Sorting.SortReals(ws, Hybrid.Scores(ws)), kN)
  }

  /** What `hybrid_with_freshness` returns for the vector hits `vec` and the BM25 hits `bm`; None where it raises. */
  function FreshRanked(vec: seq<Hit<Indexes.Node>>, bm: seq<Hit<Indexes.Node>>, alpha: real, lam: real, kN: int,
                       parse: Parser, aware: Aware, decay: Decay): Option<seq<Hit<Indexes.Node>>>
  {
    if Raises(Hybrid.Combine(vec, bm, alpha), lam, parse, aware, decay) then None
    else Some(WeightedRanking(vec, bm, alpha, lam, kN, parse, decay))
  }

  /** `hybrid_with_freshness`, given the two retrievers' hits; None where it raises. */
  method HybridWithFreshness(vec: seq<Hit<Indexes.Node>>, bm: seq<Hit<Indexes.Node>>, alpha: real, lam: real, kN: int,
                             parse: Parser, aware: Aware, decay: Decay) returns (out: Option<seq<Hit<Indexes.Node>>>)
    ensures out == FreshRanked(vec, bm, alpha, lam, kN, parse, aware, decay)
  {
    var c := Hybrid.AddAll(Hybrid.Empty(), vec, alpha);
    c := Hybrid.AddAll(c, bm, 1.0 - alpha);
    assert c == Hybrid.Combine(vec, bm, alpha);
    Hybrid.CombineKeys(vec, bm, alpha);
    var ws := FreshenAll(c, lam, parse, aware, decay);
    if ws.None? {
      return None;
    }
    out := Some(Prefix(Sorting.SortReals(ws.value, Hybrid.Scores(ws.value)), kN));
  }

  /**
   * The loop of `hybrid_with_freshness` that weighs each merged hit, in
   * insertion order; None when a weight raises.
   */
  method FreshenAll(c: Hybrid.Combined<Indexes.Node>, lam: real, parse: Parser, aware: Aware, decay: Decay)
    returns (ws: Option<seq<Hit<Indexes.Node>>>)
    requires Hybrid.Good(c)
    ensures ws.None? <==> Raises(c, lam, parse, aware, decay)
    ensures ws.Some? ==> ws.value == Freshened(c, lam, parse, decay)
  {
    ghost var all := Freshened(c, lam, parse, decay);
    var out := [];
    for i := 0 to |c.order|
      invariant out == all[..i]
      invariant WeighedUpTo(c, i, lam, parse, aware, decay)
    {
      var key := c.order[i];
      assert key in c.order;
      var h := WeighHit(c, key, lam, parse, aware, decay);
      if h.None? {
        return None;
      }
      ghost var out0 := out;
      out := out + [h.value];
      FreshenStep(c, i, lam, parse, aware, decay, h.value, out0, out);
    }
    assert out == all;
    NoneRaise(c, lam, parse, aware, decay);
    ws := Some(out);
  }

  /** The loop body for one identity: its node with the merged score times the weight; None when the weight raises. */
  method WeighHit(c: Hybrid.Combined<Indexes.Node>, key: nat, lam: real, parse: Parser, aware: Aware, decay: Decay)
    returns (h: Option<Hit<Indexes.Node>>)
    requires key in c.item && key in c.score
    ensures h.None? <==> WeightRaises(c.item[key].meta.DtIso(), lam, parse, aware, decay)
    ensures h.Some? ==> h.value == Hit(key, c.item[key], Freshen(c.score[key], c.item[key], lam, parse, decay))
  {
    var n := c.item[key];
    var wt := FreshnessWeight(n.meta.DtIso(), lam, parse, aware, decay);
    if wt.None? {
      return None;
    }
    assert wt.value == NodeWeight(n, lam, parse, decay);
    return Some(Hit(key, n, c.score[key] * wt.value));
  }

  /** The first `i` identities in insertion order are merged nodes whose weights do not raise. */
  ghost predicate WeighedUpTo(c: Hybrid.Combined<Indexes.Node>, i: int, lam: real, parse: Parser, aware: Aware, decay: Decay)
  {
    forall j :: 0 <= j < i && j < |c.order| ==> c.order[j] in c.item && !WeightRaises(c.item[c.order[j]].meta.DtIso(), lam, parse, aware, decay)
  }

  /** One step of the weighing loop: the next identity's weighted hit is appended. */
  lemma FreshenStep(c: Hybrid.Combined<Indexes.Node>, i: nat, lam: real, parse: Parser, aware: Aware, decay: Decay,
                    h: Hit<Indexes.Node>, out0: seq<Hit<Indexes.Node>>, out: seq<Hit<Indexes.Node>>)
    requires Hybrid.Good(c) && i < |c.order| && c.order[i] in c.item && c.order[i] in c.score
    requires out0 == Freshened(c, lam, parse, decay)[..i] && WeighedUpTo(c, i, lam, parse, aware, decay)
    requires !WeightRaises(c.item[c.order[i]].meta.DtIso(), lam, parse, aware, decay)
    requires h == Hit(c.order[i], c.item[c.order[i]], Freshen(c.score[c.order[i]], c.item[c.order[i]], lam, parse, decay))
    requires out == out0 + [h]
    ensures out == Freshened(c, lam, parse, decay)[..i + 1] && WeighedUpTo(c, i + 1, lam, parse, aware, decay)
  {
    var all := Freshened(c, lam, parse, decay);
    assert all[..i + 1] == all[..i] + [all[i]];
  }

  /** No weight raises once every identity in insertion order was weighed without raising. */
  lemma NoneRaise(c: Hybrid.Combined<Indexes.Node>, lam: real, parse: Parser, aware: Aware, decay: Decay)
    requires Hybrid.Good(c)
    requires WeighedUpTo(c, |c.order|, lam, parse, aware, decay)
    ensures !Raises(c, lam, parse, aware, decay)
  {
    forall x | x in c.item ensures !WeightRaises(c.item[x].meta.DtIso(), lam, parse, aware, decay) {
      assert x in c.order;
      var j :| 0 <= j < |c.order| && c.order[j] == x;
    }
  }

  /** Two hits with one identity are one Python node object, so they carry the same node. */
  predicate SameNodes(hs: seq<Hit<Indexes.Node>>)
  {
    forall i, j :: 0 <= i < |hs| && 0 <= j < |hs| && hs[i].id == hs[j].id ==> hs[i].item == hs[j].item
  }

  /**
   * `hybrid_with_freshness` raises only when `lam > 0` and a hit's `dt_iso`
   * parses to a naive moment or to one whose decay overflows, and then it
   * does raise.
   */
  lemma FreshRaises(vec: seq<Hit<Indexes.Node>>, bm: seq<Hit<Indexes.Node>>, alpha: real, lam: real, kN: int,
                    parse: Parser, aware: Aware, decay: Decay)
    ensures FreshRanked(vec, bm, alpha, lam, kN, parse, aware, decay).None? ==>
      lam > 0.0 && exists h :: h in vec + bm && WeightRaises(h.item.meta.DtIso(), lam, parse, aware, decay)
    ensures SameNodes(vec + bm) && (exists h :: h in vec + bm && WeightRaises(h.item.meta.DtIso(), lam, parse, aware, decay)) ==>
      FreshRanked(vec, bm, alpha, lam, kN, parse, aware, decay).None?
  {
    var c := Hybrid.Combine(vec, bm, alpha);
    Hybrid.CombineItems(vec, bm, alpha);
    if Raises(c, lam, parse, aware, decay) {
      var x :| x in c.item && WeightRaises(c.item[x].meta.DtIso(), lam, parse, aware, decay);
      var h :| h in vec + bm && h.id == x && h.item == c.item[x];
    }
    if SameNodes(vec + bm) && exists h :: h in vec + bm && WeightRaises(h.item.meta.DtIso(), lam, parse, aware, decay) {
      var h :| h in vec + bm && WeightRaises(h.item.meta.DtIso(), lam, parse, aware, decay);
      RaisingHitRaises(vec, bm, alpha, lam, parse, aware, decay, h);
    }
  }

  /** A raising hit's identity is merged, and with one node per identity its merged node raises. */
  lemma RaisingHitRaises(vec: seq<Hit<Indexes.Node>>, bm: seq<Hit<Indexes.Node>>, alpha: real, lam: real,
                         parse: Parser, aware: Aware, decay: Decay, h: Hit<Indexes.Node>)
    requires SameNodes(vec + bm) && h in vec + bm && WeightRaises(h.item.meta.DtIso(), lam, parse, aware, decay)
    ensures Raises(Hybrid.Combine(vec, bm, alpha), lam, parse, aware, decay)
  {
    var c := Hybrid.Combine(vec, bm, alpha);
    HitMerged(vec, bm, alpha, h);
    Hybrid.CombineItems(vec, bm, alpha);
    var hs := vec + bm;
    var i :| 0 <= i < |hs| && hs[i] == h;
    var g :| g in hs && g.id == h.id && g.item == c.item[h.id];
    var j :| 0 <= j < |hs| && hs[j] == g;
  }

  /** Every hit's identity is among the merged ones. */
  lemma HitMerged(vec: seq<Hit<Indexes.Node>>, bm: seq<Hit<Indexes.Node>>, alpha: real, h: Hit<Indexes.Node>)
    requires h in vec + bm
    ensures h.id in Hybrid.Combine(vec, bm, alpha).item
  {
    Hybrid.CombineKeys(vec, bm, alpha);
    if h in vec {
      var i :| 0 <= i < |vec| && vec[i] == h;
      assert Hybrid.Ids(vec)[i] == h.id;
    } else {
      var i :| 0 <= i < |bm| && bm[i] == h;
      assert Hybrid.Ids(bm)[i] == h.id;
    }
  }

  // ---------------------------------------------------------------------------
  // Properties of the freshness-weighted merge
  // ---------------------------------------------------------------------------

  /** The reweighed dictionaries ranked as `Hybrid` ranks them, cut to `k`. */
  function FreshHits(c: Hybrid.Combined<Indexes.Node>, lam: real, parse: Parser, decay: Decay, k: int): seq<Hit<Indexes.Node>>
    requires Hybrid.Good(c)
  {
    Hybrid.HitsOf(Reweigh(c, lam, parse, decay), Hybrid.Ranked(Reweigh(c, lam, parse, decay), k))
  }

  /** Each ranked hit carries its merged score times its node's weight. */
  lemma FreshHitsScores(c: Hybrid.Combined<Indexes.Node>, lam: real, parse: Parser, decay: Decay, k: int)
    requires Hybrid.Good(c)
    ensures forall i :: 0 <= i < |FreshHits(c, lam, parse, decay, k)| ==>
      && FreshHits(c, lam, parse, decay, k)[i].id in c.score
      && FreshHits(c, lam, parse, decay, k)[i].score
         == Freshen(c.score[FreshHits(c, lam, parse, decay, k)[i].id], FreshHits(c, lam, parse, decay, k)[i].item, lam, parse, decay)
  {
    var w := Reweigh(c, lam, parse, decay);
    var ranked := Hybrid.Ranked(w, k);
    forall i | 0 <= i < |ranked| ensures c.order[ranked[i]] in c.score {
      assert c.order[ranked[i]] in c.order;
    }
  }

  /** Without decay, reweighing changes nothing. */
  lemma ReweighUnit(c: Hybrid.Combined<Indexes.Node>, lam: real, parse: Parser, decay: Decay)
    requires Hybrid.Good(c) && lam <= 0.0
    ensures Reweigh(c, lam, parse, decay) == c
  {
    var w := Reweigh(c, lam, parse, decay);
    forall x | x in c.score ensures w.score[x] == c.score[x] {
      FreshenUnit(c.score[x], c.item[x], lam, parse, decay);
    }
    assert w.score == c.score;
  }

  /** The weighted, sorted list is the ranking of the reweighed dictionaries. */
  lemma FreshAsRanked(vec: seq<Hit<Indexes.Node>>, bm: seq<Hit<Indexes.Node>>, alpha: real, lam: real, kN: int,
                      parse: Parser, decay: Decay)
    ensures Hybrid.Good(Hybrid.Combine(vec, bm, alpha))
    ensures WeightedRanking(vec, bm, alpha, lam, kN, parse, decay) == FreshHits(Hybrid.Combine(vec, bm, alpha), lam, parse, decay, kN)
  {
    Hybrid.CombineKeys(vec, bm, alpha);
    var c := Hybrid.Combine(vec, bm, alpha);
    var w, hs := Reweigh(c, lam, parse, decay), Freshened(c, lam, parse, decay);
    forall i | 0 <= i < |hs|
      ensures w.order[i] == hs[i].id && w.order[i] in w.score && w.score[w.order[i]] == hs[i].score && w.item[w.order[i]] == hs[i].item
    {
    }
    Hybrid.HitsOfSorted(w, hs, kN);
  }

  /** `min(kN, n)` results for `kN >= 0`, `n` counting the distinct nodes of both lists. */
  lemma FreshLength(vec: seq<Hit<Indexes.Node>>, bm: seq<Hit<Indexes.Node>>, alpha: real, lam: real, kN: int,
                    parse: Parser, decay: Decay)
    requires 0 <= kN
    ensures |WeightedRanking(vec, bm, alpha, lam, kN, parse, decay)| == Text.Min(kN, |Hybrid.Dedup(Hybrid.Ids(vec) + Hybrid.Ids(bm))|)
  {
    FreshAsRanked(vec, bm, alpha, lam, kN, parse, decay);
    Hybrid.CombineOrder(vec, bm, alpha);
  }

  /**
   * Each result is a node of either list, none twice, scored with its
   * `alpha`-weighted vector scores plus its `(1 - alpha)`-weighted BM25 scores,
   * times its freshness weight.
   */
  lemma FreshScores(vec: seq<Hit<Indexes.Node>>, bm: seq<Hit<Indexes.Node>>, alpha: real, lam: real, kN: int,
                    parse: Parser, decay: Decay)
    ensures forall i :: 0 <= i < |WeightedRanking(vec, bm, alpha, lam, kN, parse, decay)| ==>
      WeightedRanking(vec, bm, alpha, lam, kN, parse, decay)[i].id in Hybrid.Ids(vec)
      || WeightedRanking(vec, bm, alpha, lam, kN, parse, decay)[i].id in Hybrid.Ids(bm)
    ensures forall i :: 0 <= i < |WeightedRanking(vec, bm, alpha, lam, kN, parse, decay)| ==>
      WeightedRanking(vec, bm, alpha, lam, kN, parse, decay)[i].score
        == Freshen(Hybrid.MergedScore(vec, bm, alpha, WeightedRanking(vec, bm, alpha, lam, kN, parse, decay)[i].id),
                   WeightedRanking(vec, bm, alpha, lam, kN, parse, decay)[i].item, lam, parse, decay)
  {
    FreshAsRanked(vec, bm, alpha, lam, kN, parse, decay);
    Hybrid.CombineKeys(vec, bm, alpha);
    Hybrid.CombineScore(vec, bm, alpha);
    var c := Hybrid.Combine(vec, bm, alpha);
    FreshHitsScores(c, lam, parse, decay, kN);
  }

  /** No node appears twice among the results. */
  lemma FreshDistinct(vec: seq<Hit<Indexes.Node>>, bm: seq<Hit<Indexes.Node>>, alpha: real, lam: real, kN: int,
                      parse: Parser, decay: Decay)
    ensures forall i, j :: 0 <= i < j < |WeightedRanking(vec, bm, alpha, lam, kN, parse, decay)| ==>
      WeightedRanking(vec, bm, alpha, lam, kN, parse, decay)[i].id != WeightedRanking(vec, bm, alpha, lam, kN, parse, decay)[j].id
  {
    FreshAsRanked(vec, bm, alpha, lam, kN, parse, decay);
    FreshHitsDistinct(Hybrid.Combine(vec, bm, alpha), lam, parse, decay, kN);
  }

  lemma FreshHitsDistinct(c: Hybrid.Combined<Indexes.Node>, lam: real, parse: Parser, decay: Decay, k: int)
    requires Hybrid.Good(c)
    ensures forall i, j :: 0 <= i < j < |FreshHits(c, lam, parse, decay, k)| ==>
      FreshHits(c, lam, parse, decay, k)[i].id != FreshHits(c, lam, parse, decay, k)[j].id
  {
    Hybrid.RankedHitsDistinct(Reweigh(c, lam, parse, decay), k);
  }

  /** The ranked hits descend by weighted score, equal scores in insertion order. */
  lemma FreshHitsOrder(c: Hybrid.Combined<Indexes.Node>, lam: real, parse: Parser, decay: Decay, k: int)
    requires Hybrid.Good(c)
    ensures forall i, j :: 0 <= i < j < |FreshHits(c, lam, parse, decay, k)| ==>
      FreshHits(c, lam, parse, decay, k)[i].score > FreshHits(c, lam, parse, decay, k)[j].score
      || (FreshHits(c, lam, parse, decay, k)[i].score == FreshHits(c, lam, parse, decay, k)[j].score
          && FirstBefore(c.order, FreshHits(c, lam, parse, decay, k)[i].id, FreshHits(c, lam, parse, decay, k)[j].id))
  {
    var w := Reweigh(c, lam, parse, decay);
    Hybrid.RankedHitsOrder(w, k);
    var ranked := Hybrid.Ranked(w, k);
    var r := Hybrid.HitsOf(w, ranked);
    forall i, j | 0 <= i < j < |r| && ranked[i] < ranked[j] ensures FirstBefore(c.order, r[i].id, r[j].id) {
      assert c.order[ranked[i]] == r[i].id && c.order[ranked[j]] == r[j].id;
    }
  }

  /**
   * Results come by non-increasing weighted score, equal scores in the order
   * their nodes first appeared (vector hits first, then BM25-only nodes).
   */
  lemma FreshOrder(vec: seq<Hit<Indexes.Node>>, bm: seq<Hit<Indexes.Node>>, alpha: real, lam: real, kN: int,
                   parse: Parser, decay: Decay)
    ensures forall i, j :: 0 <= i < j < |WeightedRanking(vec, bm, alpha, lam, kN, parse, decay)| ==>
      WeightedRanking(vec, bm, alpha, lam, kN, parse, decay)[i].score > WeightedRanking(vec, bm, alpha, lam, kN, parse, decay)[j].score
      || (WeightedRanking(vec, bm, alpha, lam, kN, parse, decay)[i].score == WeightedRanking(vec, bm, alpha, lam, kN, parse, decay)[j].score
          && FirstBefore(Hybrid.Dedup(Hybrid.Ids(vec) + Hybrid.Ids(bm)),
                         WeightedRanking(vec, bm, alpha, lam, kN, parse, decay)[i].id, WeightedRanking(vec, bm, alpha, lam, kN, parse, decay)[j].id))
  {
    FreshAsRanked(vec, bm, alpha, lam, kN, parse, decay);
    Hybrid.CombineOrder(vec, bm, alpha);
    FreshHitsOrder(Hybrid.Combine(vec, bm, alpha), lam, parse, decay, kN);
  }

  /** `a` occurs in `ids` at an earlier position than `b`. */
  ghost predicate FirstBefore(ids: seq<nat>, a: nat, b: nat)
  {
    exists p, q :: 0 <= p < q < |ids| && ids[p] == a && ids[q] == b
  }

  /** With `lam <= 0` nothing raises, every weight is 1.0 and the result is exactly `hybrid_merge`'s. */
  lemma FreshWithoutDecay(vec: seq<Hit<Indexes.Node>>, bm: seq<Hit<Indexes.Node>>, alpha: real, lam: real, kN: int,
                          parse: Parser, aware: Aware, decay: Decay)
    requires lam <= 0.0
    ensures FreshRanked(vec, bm, alpha, lam, kN, parse, aware, decay) == Some(Hybrid.Merged(vec, bm, alpha, kN))
  {
    FreshAsRanked(vec, bm, alpha, lam, kN, parse, decay);
    ReweighUnit(Hybrid.Combine(vec, bm, alpha), lam, parse, decay);
  }

  /** Without decay a weight is 1.0 and leaves the score as it is. */
  lemma FreshenUnit(s: real, n: Indexes.Node, lam: real, parse: Parser, decay: Decay)
    requires lam <= 0.0
    ensures Freshen(s, n, lam, parse, decay) == s
  {
  }

  // ---------------------------------------------------------------------------
  // filter_spend_current_month
  // ---------------------------------------------------------------------------

  /** `now_utc.replace(day=1, hour=0, minute=0, second=0, microsecond=0)`. */
  function MonthStart(now: Timestamp): Timestamp
  {
    DateTime(now.year, now.month, 1, 0, 0, 0, 0)
  }

  /**
   * Whether the filter keeps a node: anything that is not a transaction; a
   * transaction only when it is a spend candidate whose `dt_iso` parses (read
   * in UTC) to a moment between the start of the month and now, both included.
   */
  predicate Keep(parse: Parser, now: Timestamp, n: Hit<Indexes.Node>)
  {
    !n.item.meta.TransactionMeta?
    || (n.item.meta.spendCandidate
        && Banking.ParseDt(parse, n.item.meta.dtIso).Some?
        && Le(MonthStart(now), Banking.ParseDt(parse, n.item.meta.dtIso).value)
        && Le(Banking.ParseDt(parse, n.item.meta.dtIso).value, now))
  }

  /** `Keep` as a function value for `Filter`. */
  function Keeps(parse: Parser, now: Timestamp): Hit<Indexes.Node> -> bool
  {
    n => Keep(parse, now, n)
  }

  /** What `filter_spend_current_month` returns: an empty input as it is, otherwise the kept nodes in order. */
  function SpendFiltered(nodes: seq<Hit<Indexes.Node>>, now: Timestamp, parse: Parser): seq<Hit<Indexes.Node>>
  {
    if nodes == [] then nodes else Filter(nodes, Keeps(parse, now))
  }

  /** `filter_spend_current_month`; `now` is the caller's time or the clock's when none is given. */
  method FilterSpendCurrentMonth(nodes: seq<Hit<Indexes.Node>>, now: Timestamp, parse: Parser) returns (out: seq<Hit<Indexes.Node>>)
    ensures out == SpendFiltered(nodes, now, parse)
  {
    if |nodes| == 0 {
      return nodes;
    }
    var monthStart := MonthStart(now);
    out := [];
    for i := 0 to |nodes|
      invariant out == Filter(nodes[..i], Keeps(parse, now))
    {
      var n := nodes[i];
      FilterSnoc(nodes[..i], n, Keeps(parse, now));
      assert nodes[..i + 1] == nodes[..i] + [n];
      var md := n.item.meta;
      if !md.TransactionMeta? {
        out := out + [n];
        continue;
      }
      if !md.spendCandidate {
        continue;
      }
      var dt := Banking.ParseDt(parse, md.dtIso);
      if dt.None? {
        continue;
      }
      if Le(monthStart, dt.value) && Le(dt.value, now) {
        out := out + [n];
      }
    }
    assert nodes[..|nodes|] == nodes;
  }

  /**
   * The result is an order-preserving subsequence of the input holding
   * exactly the nodes `Keep` accepts; in particular every node that is not a
   * transaction is kept.
   */
  lemma SpendFilteredSpec(nodes: seq<Hit<Indexes.Node>>, now: Timestamp, parse: Parser)
    ensures IsSubseq(SpendFiltered(nodes, now, parse), nodes)
    ensures forall n :: n in SpendFiltered(nodes, now, parse) <==> n in nodes && Keep(parse, now, n)
    ensures forall n :: n in nodes && !n.item.meta.TransactionMeta? ==> n in SpendFiltered(nodes, now, parse)
  {
    FilterSpec(nodes, Keeps(parse, now));
  }

  /**
   * The window from the start of the month to now holds exactly the moments
   * of now's year and month that are not after now.
   */
  lemma WindowIsCurrentMonth(now: Timestamp, dt: Timestamp)
    ensures Le(MonthStart(now), dt) && Le(dt, now) <==> YmOf(dt) == YmOf(now) && Le(dt, now)
  {
    YmOfInjective(dt, now);
  }

  /** A transaction the filter keeps is a spend candidate dated in now's month, not after now. */
  lemma KeptTransactionIsThisMonth(nodes: seq<Hit<Indexes.Node>>, now: Timestamp, parse: Parser, n: Hit<Indexes.Node>)
    requires n in SpendFiltered(nodes, now, parse) && n.item.meta.TransactionMeta?
    ensures n.item.meta.spendCandidate && Banking.ParseDt(parse, n.item.meta.dtIso).Some?
    ensures YmOf(Banking.ParseDt(parse, n.item.meta.dtIso).value) == YmOf(now)
    ensures Le(Banking.ParseDt(parse, n.item.meta.dtIso).value, now)
  {
    SpendFilteredSpec(nodes, now, parse);
    WindowIsCurrentMonth(now, Banking.ParseDt(parse, n.item.meta.dtIso).value);
  }
}
