/**
 * `backend/context/builder.py`: the context handed to the answer prompt. The
 * vector store and the BM25 store are searches given as parameters (the BM25
 * search is `Lexical.BM25Store.Search`; the vector search is FAISS).
 */
module Builder {
  import opened Common
  import Hybrid

  /** A store's `search(query, k)`: its top hits for the query. */
  type Search = (string, int) -> seq<Hit<Chunk>>

  /**
   * `build_context`: the vector hits for `kN`, merged with the BM25 hits for
   * `kN` when hybrid retrieval is on and a BM25 store exists, then cut to `kK`.
   */
  function BuildContext(query: string, vec: Search, bm25: Option<Search>, useHybrid: bool,
                        alpha: real, kN: int, kK: int): (r: seq<Hit<Chunk>>)
    ensures 0 <= kK ==> |r| <= kK
  {
    var vecRes := vec(query, kN);
    var merged := if useHybrid && bm25.Some? then Hybrid.Merged(vecRes, bm25.value(query, kN), alpha, kN) else vecRes;
    Prefix(merged, kK)
  }

  /** Without hybrid retrieval, or without a BM25 store, the context is the first `kK` vector hits for `kN`. */
  lemma ContextVectorOnly(query: string, vec: Search, bm25: Option<Search>, useHybrid: bool, alpha: real, kN: int, kK: int)
    requires !useHybrid || bm25.None?
    ensures BuildContext(query, vec, bm25, useHybrid, alpha, kN, kK) == Prefix(vec(query, kN), kK)
    ensures 0 <= kK ==> |BuildContext(query, vec, bm25, useHybrid, alpha, kN, kK)| == if kK < |vec(query, kN)| then kK else |vec(query, kN)|
  {
  }

  /**
   * In hybrid mode the context is the first `kK` of the merge of both
   * searches at `kN`: best combined score first, ties in first-appearance
   * order, no chunk twice.
   */
  lemma ContextHybrid(query: string, vec: Search, bm25: Search, alpha: real, kN: int, kK: int)
    ensures BuildContext(query, vec, Some(bm25), true, alpha, kN, kK)
      == Prefix(Hybrid.Merged(vec(query, kN), bm25(query, kN), alpha, kN), kK)
    ensures forall i, j :: 0 <= i < j < |BuildContext(query, vec, Some(bm25), true, alpha, kN, kK)| ==>
      BuildContext(query, vec, Some(bm25), true, alpha, kN, kK)[i].id != BuildContext(query, vec, Some(bm25), true, alpha, kN, kK)[j].id
      && BuildContext(query, vec, Some(bm25), true, alpha, kN, kK)[i].score >= BuildContext(query, vec, Some(bm25), true, alpha, kN, kK)[j].score
  {
    MergedRanked(vec(query, kN), bm25(query, kN), alpha, kN);
    PrefixRanked(Hybrid.Merged(vec(query, kN), bm25(query, kN), alpha, kN), kK);
  }

  /** The merge never repeats a chunk and never puts a lower score first. */
  lemma MergedRanked(vecRes: seq<Hit<Chunk>>, lexRes: seq<Hit<Chunk>>, alpha: real, kN: int)
    ensures forall i, j :: 0 <= i < j < |Hybrid.Merged(vecRes, lexRes, alpha, kN)| ==>
      Hybrid.Merged(vecRes, lexRes, alpha, kN)[i].id != Hybrid.Merged(vecRes, lexRes, alpha, kN)[j].id
      && Hybrid.Merged(vecRes, lexRes, alpha, kN)[i].score >= Hybrid.Merged(vecRes, lexRes, alpha, kN)[j].score
  {
    Hybrid.MergedIds(vecRes, lexRes, alpha, kN);
    Hybrid.MergedOrder(vecRes, lexRes, alpha, kN);
  }

  /** `[:k]` of hits with distinct chunks and non-increasing scores keeps both. */
  lemma PrefixRanked(m: seq<Hit<Chunk>>, k: int)
    requires forall i, j :: 0 <= i < j < |m| ==> m[i].id != m[j].id && m[i].score >= m[j].score
    ensures forall i, j :: 0 <= i < j < |Prefix(m, k)| ==> Prefix(m, k)[i].id != Prefix(m, k)[j].id && Prefix(m, k)[i].score >= Prefix(m, k)[j].score
  {
    var r := Prefix(m, k);
    assert r == m[..|r|];
  }

  /**
   * Both searches are issued with `k = kN` only: searches that agree on
   * `(query, kN)` give the same context, whatever they return for other `k`.
   */
  lemma ContextSearchesAtKN(query: string, vec: Search, vec': Search, bm25: Option<Search>, bm25': Option<Search>,
                            useHybrid: bool, alpha: real, kN: int, kK: int)
    requires vec(query, kN) == vec'(query, kN)
    requires bm25.Some? <==> bm25'.Some?
    requires bm25.Some? ==> bm25.value(query, kN) == bm25'.value(query, kN)
    ensures BuildContext(query, vec, bm25, useHybrid, alpha, kN, kK) == BuildContext(query, vec', bm25', useHybrid, alpha, kN, kK)
  {
  }
}
