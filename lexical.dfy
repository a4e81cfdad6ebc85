/**
 * `backend/rag/lexical.py`: the BM25 store over the corpus chunks. Scoring
 * itself (`rank_bm25`'s `BM25Okapi`) is a parameter; what is modelled is the
 * tokenisation and the top-k selection over the scores.
 */
module Lexical {
  import opened Common
  import Text
  import Sorting

  /** `_tokenize`: lower-case, then split on runs of whitespace. */
  function Tokenize(s: string): seq<string>
  {
    Text.Words(Lower(s))
  }

  /**
   * Every token is a non-empty run without whitespace, and the tokens joined
   * by single spaces are the lower-cased text with its whitespace normalised.
   */
  lemma TokenizeSpec(s: string)
    ensures forall i :: 0 <= i < |Tokenize(s)| ==> Text.IsWord(Tokenize(s)[i])
    ensures Join(Tokenize(s), " ") == Text.NormalizeWs(Lower(s))
  {
    Text.WordsAreWords(Lower(s));
    Text.NormalizeIsJoinedWords(Lower(s));
  }

  /** Tokenising is insensitive to case: lower-cased text gives the same tokens. */
  lemma TokenizeLower(s: string)
    ensures Tokenize(Lower(s)) == Tokenize(s)
  {
    LowerFixed(Lower(s));
  }

  /** A BM25 scorer built over tokenised documents: query tokens to one score per document. */
  type Okapi = seq<seq<string>> -> (seq<string> -> seq<real>)

  /** The tokens of one chunk's text. */
  function ChunkTokens(c: Chunk): seq<string>
  {
    Tokenize(c.text)
  }

  /** `[_tokenize(c.text) for c in chunks]`. */
  function CorpusTokens(chunks: seq<Chunk>): (r: seq<seq<string>>)
    ensures |r| == |chunks| && forall i :: 0 <= i < |chunks| ==> r[i] == ChunkTokens(chunks[i])
  {
    MapSeq(ChunkTokens, chunks)
  }

  /** The hits at the given positions: each pairs the chunk with its score. */
  function HitsAt(chunks: seq<Chunk>, scores: seq<real>, idxs: seq<nat>): (r: seq<Hit<Chunk>>)
    requires forall i :: 0 <= i < |idxs| ==> idxs[i] < |chunks| && idxs[i] < |scores|
    ensures |r| == |idxs|
    ensures forall i :: 0 <= i < |idxs| ==> r[i] == Hit(idxs[i], chunks[idxs[i]], scores[idxs[i]])
  {
    if idxs == [] then [] else [Hit(idxs[0], chunks[idxs[0]], scores[idxs[0]])] + HitsAt(chunks, scores, idxs[1..])
  }

  /** The positions `search` keeps: all positions by descending score (stable), cut to `k` as `[:k]` does. */
  function TopPositions(scores: seq<real>, k: int): (r: seq<nat>)
    ensures Sorting.RankedBy(scores, Sorting.RealLt(), r)
    ensures forall i :: 0 <= i < |r| ==> r[i] < |scores|
    ensures 0 <= k ==> |r| == Text.Min(k, |scores|)
  {
    Sorting.RealLtTotal();
    var order := Sorting.Rank(scores, Sorting.RealLt());
    var r := Prefix(order, k);
    assert forall i :: 0 <= i < |r| ==> r[i] == order[i];
    r
  }

  /** The kept positions descend by score, equal scores in increasing position, none twice. */
  lemma TopPositionsOrder(scores: seq<real>, k: int)
    ensures var r := TopPositions(scores, k);
      forall i, j :: 0 <= i < j < |r| ==>
        (scores[r[i]] > scores[r[j]] || (scores[r[i]] == scores[r[j]] && r[i] < r[j])) && r[i] != r[j]
  {
    var r := TopPositions(scores, k);
    forall i, j | 0 <= i < j < |r|
      ensures (scores[r[i]] > scores[r[j]] || (scores[r[i]] == scores[r[j]] && r[i] < r[j])) && r[i] != r[j]
    {
      assert Sorting.Above(scores, Sorting.RealLt(), r[i], r[j]);
    }
  }

  /**
   * The positions kept are the top ones: nothing left out scores above a kept
   * one, and a left-out position with an equal score comes later.
   */
  lemma TopPositionsAreTop(scores: seq<real>, k: int)
    ensures var r := TopPositions(scores, k);
      forall i, p :: 0 <= i < |r| && 0 <= p < |scores| && p !in r ==>
        scores[p] < scores[r[i]] || (scores[p] == scores[r[i]] && r[i] < p)
  {
    Sorting.RealLtTotal();
    var order := Sorting.Rank(scores, Sorting.RealLt());
    var r := TopPositions(scores, k);
    assert r == Prefix(order, k);
    forall i, p | 0 <= i < |r| && 0 <= p < |scores| && p !in r
      ensures scores[p] < scores[r[i]] || (scores[p] == scores[r[i]] && r[i] < p)
    {
      assert p in order;
      var j :| 0 <= j < |order| && order[j] == p;
      assert order[i] == r[i];
      assert Sorting.Above(scores, Sorting.RealLt(), r[i], p);
    }
  }

  class BM25Store {
    var chunks: seq<Chunk>
    var corpusTokens: seq<seq<string>>
    var bm25: seq<string> -> seq<real>

    /** The tokens are those of the chunks, and the scorer gives one score per chunk. */
    ghost predicate Valid()
      reads this
    {
      && |corpusTokens| == |chunks|
      && (forall i :: 0 <= i < |chunks| ==> corpusTokens[i] == ChunkTokens(chunks[i]))
      && (forall q :: |bm25(q)| == |chunks|)
    }

    /** Tokenises every chunk and builds the scorer over the tokens. */
    constructor(chunks: seq<Chunk>, okapi: Okapi)
      requires forall docs, q :: |okapi(docs)(q)| == |docs|
      ensures Valid()
      ensures this.chunks == chunks && corpusTokens == CorpusTokens(chunks) && bm25 == okapi(CorpusTokens(chunks))
    {
      var tokens := CorpusTokens(chunks);
      this.chunks := chunks;
      corpusTokens := tokens;
      bm25 := okapi(tokens);
    }

    /** The score of every chunk for a query, in corpus order. */
    function Scores(query: string): (r: seq<real>)
      reads this
      requires Valid()
      ensures |r| == |chunks|
    {
      bm25(Tokenize(query))
    }

    /**
     * `search`: `min(k, n)` hits for `k >= 0`, each pairing a chunk with its
     * score for the query.
     */
    function Search(query: string, k: int): (r: seq<Hit<Chunk>>)
      reads this
      requires Valid()
      ensures 0 <= k ==> |r| == Text.Min(k, |chunks|)
      ensures forall i :: 0 <= i < |r| ==> r[i].id < |chunks| && r[i] == Hit(r[i].id, chunks[r[i].id], Scores(query)[r[i].id])
    {
      HitsAt(chunks, Scores(query), TopPositions(Scores(query), k))
    }
  }

  /** Search results come best score first, equal scores in corpus order, and no chunk twice. */
  lemma SearchOrder(store: BM25Store, query: string, k: int)
    requires store.Valid()
    ensures var r := store.Search(query, k);
      && (forall i, j :: 0 <= i < j < |r| ==> r[i].score > r[j].score || (r[i].score == r[j].score && r[i].id < r[j].id))
      && (forall i, j :: 0 <= i < j < |r| ==> r[i].id != r[j].id)
  {
    var s := store.Scores(query);
    TopPositionsOrder(s, k);
  }

  /** The chunk positions of some hits, in order. */
  function HitIds(r: seq<Hit<Chunk>>): (ids: seq<nat>)
    ensures |ids| == |r| && forall i :: 0 <= i < |r| ==> ids[i] == r[i].id
  {
    if r == [] then [] else [r[0].id] + HitIds(r[1..])
  }

  /** Every kept hit outranks every chunk left out. */
  lemma SearchIsTop(store: BM25Store, query: string, k: int)
    requires store.Valid()
    ensures var r, s := store.Search(query, k), store.Scores(query);
      forall i, p :: 0 <= i < |r| && 0 <= p < |s| && p !in HitIds(r) ==>
        s[p] < r[i].score || (s[p] == r[i].score && r[i].id < p)
  {
    TopPositionsAreTop(store.Scores(query), k);
    SearchIds(store, query, k);
  }

  /** The hits' positions are the kept positions. */
  lemma SearchIds(store: BM25Store, query: string, k: int)
    requires store.Valid()
    ensures HitIds(store.Search(query, k)) == TopPositions(store.Scores(query), k)
  {
  }
}
