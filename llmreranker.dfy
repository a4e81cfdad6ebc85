/**
 * `backend/rerankers/llm_reranker.py`: candidates are sent to a language
 * model in batches, each batch's reply is read as JSON `{"scores": [...]}`,
 * and the scored candidates are sorted best first. The model call and the
 * JSON decoding are one parameter (`Judge`), Python's `float` on text another.
 */
module LlmReranker {
  import opened Common
  import Text
  import Sorting

  /** The system prompt sent with every batch. */
  const System: string := "You score relevance between 0.0 and 1.0. Return JSON: {\"scores\":[number,...]} only."

  /** Candidate texts are cut to this many characters before they are sent. */
  const TextLimit: nat := 1200

  /** The default batch size. */
  const DefaultBatch: int := 20

  /** A candidate with the score the judge gave it. */
  datatype Scored = Scored(chunk: Chunk, score: real)

  /**
   * One call to the model for a query and a batch of candidate texts, with
   * its reply decoded by `json.loads`: `None` when the reply is not JSON.
   */
  type Judge = (string, seq<string>) -> Option<Value>

  /** The candidate texts of one batch as they are put in the prompt: each cut to `TextLimit` characters. */
  function Texts(batch: seq<Chunk>): (r: seq<string>)
    ensures |r| == |batch|
    ensures forall i :: 0 <= i < |batch| ==>
      |r[i]| == Text.Min(TextLimit, |batch[i].text|) && r[i] == batch[i].text[..|r[i]|]
  {
    if batch == [] then [] else [Prefix(batch[0].text, TextLimit)] + Texts(batch[1..])
  }

  /** The score given for one item: its `float`, or 0.0 when that raises. */
  function ScoreOf(parse: FloatParser, v: Value): real
  {
    match ToFloat(parse, v)
    case Some(x) => x
    case None => 0.0
  }

  /** Iterating a string yields its characters as one-character strings. */
  function Chars(s: string): (r: seq<Value>)
    ensures |r| == |s| && forall i :: 0 <= i < |s| ==> r[i] == Str([s[i]])
  {
    if s == [] then [] else [Str([s[0]])] + Chars(s[1..])
  }

  /**
   * The items `zip` pairs the batch with: those of `data.get("scores", [])`.
   * `None` when that raises: the reply is not an object (no `get`), or its
   * scores cannot be iterated.
   */
  function ScoreItems(data: Value): Option<seq<Value>>
  {
    if !data.Obj? then None
    else
      match (if "scores" in data.fields then data.fields["scores"] else List([]))
      case List(xs) => Some(xs)
      case Str(s) => Some(Chars(s))
      case _ => None
  }

  /** The batch, every candidate scored 0.0: what the outer `except` appends. */
  function Zeros(batch: seq<Chunk>): (r: seq<Scored>)
    ensures |r| == |batch| && forall i :: 0 <= i < |batch| ==> r[i] == Scored(batch[i], 0.0)
  {
    if batch == [] then [] else [Scored(batch[0], 0.0)] + Zeros(batch[1..])
  }

  /** `zip(batch_items, scores)`, each pair scored by `float` or 0.0: as many pairs as the shorter side. */
  function Zip(batch: seq<Chunk>, items: seq<Value>, parse: FloatParser): (r: seq<Scored>)
    ensures |r| == Text.Min(|batch|, |items|)
    ensures forall i :: 0 <= i < |r| ==> r[i] == Scored(batch[i], ScoreOf(parse, items[i]))
  {
    if batch == [] || items == [] then [] else [Scored(batch[0], ScoreOf(parse, items[0]))] + Zip(batch[1..], items[1..], parse)
  }

  /** What one batch appends to the output, given the decoded reply. */
  function BatchScores(reply: Option<Value>, batch: seq<Chunk>, parse: FloatParser): (r: seq<Scored>)
    ensures |r| <= |batch| && forall i :: 0 <= i < |r| ==> r[i].chunk == batch[i]
  {
    if reply.None? then Zeros(batch)
    else
      match ScoreItems(reply.value)
      case None => Zeros(batch)
      case Some(items) => Zip(batch, items, parse)
  }

  /** A reply covers its batch when it fails as a whole or lists at least one score per candidate. */
  predicate Covers(reply: Option<Value>, batch: seq<Chunk>)
  {
    reply.None? || ScoreItems(reply.value).None? || |batch| <= |ScoreItems(reply.value).value|
  }

  /**
   * A reply that cannot be used (not JSON, not an object, or scores that
   * cannot be iterated) scores the whole batch 0.0 and drops nothing.
   */
  lemma UnusableReplyScoresZero(reply: Option<Value>, batch: seq<Chunk>, parse: FloatParser)
    requires reply.None? || ScoreItems(reply.value).None?
    ensures |BatchScores(reply, batch, parse)| == |batch|
    ensures forall i :: 0 <= i < |batch| ==> BatchScores(reply, batch, parse)[i] == Scored(batch[i], 0.0)
  {
  }

  /**
   * With a score list, candidate `i` gets the `i`-th item's `float`, or 0.0
   * when that item alone cannot be converted; items past the batch are ignored.
   */
  lemma ListedScores(reply: Value, batch: seq<Chunk>, parse: FloatParser)
    requires ScoreItems(reply).Some?
    ensures forall i :: 0 <= i < |BatchScores(Some(reply), batch, parse)| ==>
      BatchScores(Some(reply), batch, parse)[i].score
        == (if ToFloat(parse, ScoreItems(reply).value[i]).Some? then ToFloat(parse, ScoreItems(reply).value[i]).value else 0.0)
    ensures |BatchScores(Some(reply), batch, parse)| == Text.Min(|batch|, |ScoreItems(reply).value|)
  {
  }

  /** A batch keeps every candidate exactly when its reply covers it: a short score list drops the candidates past its end. */
  lemma BatchKeepsAll(reply: Option<Value>, batch: seq<Chunk>, parse: FloatParser)
    ensures |BatchScores(reply, batch, parse)| == |batch| <==> Covers(reply, batch)
    ensures Covers(reply, batch) ==> forall i :: 0 <= i < |batch| ==> BatchScores(reply, batch, parse)[i].chunk == batch[i]
  {
  }

  /** `candidates[i:i+batch]` for `i` in `range(0, len(candidates), batch)`. */
  function Batches(cands: seq<Chunk>, b: nat): (r: seq<seq<Chunk>>)
    requires b > 0
    ensures forall k :: 0 <= k < |r| ==> 0 < |r[k]| <= b
    decreases |cands|
  {
    if cands == [] then [] else [cands[..Text.Min(b, |cands|)]] + Batches(cands[Text.Min(b, |cands|)..], b)
  }

  /** The batches one after the other. */
  function Flatten<T>(bs: seq<seq<T>>): seq<T>
  {
    if bs == [] then [] else bs[0] + Flatten(bs[1..])
  }

  /**
   * The batches cover the candidates in order, none is empty, and all but
   * the last hold exactly `b` candidates.
   */
  lemma {:induction false} BatchesCover(cands: seq<Chunk>, b: nat)
    requires b > 0
    ensures Flatten(Batches(cands, b)) == cands
    ensures forall k :: 0 <= k < |Batches(cands, b)| - 1 ==> |Batches(cands, b)[k]| == b
    decreases |cands|
  {
    if cands != [] {
      var m := Text.Min(b, |cands|);
      BatchesCover(cands[m..], b);
      assert cands == cands[..m] + cands[m..];
      if cands[m..] != [] {
        assert m == b;
      }
    }
  }

  /** The candidate texts sent in each call. */
  function Prompts(bs: seq<seq<Chunk>>): (r: seq<seq<string>>)
    ensures |r| == |bs| && forall k :: 0 <= k < |bs| ==> r[k] == Texts(bs[k])
  {
    if bs == [] then [] else [Texts(bs[0])] + Prompts(bs[1..])
  }

  /** The output list before sorting: each batch's pairs, batch after batch. */
  function ScoreAll(query: string, bs: seq<seq<Chunk>>, judge: Judge, parse: FloatParser): (r: seq<Scored>)
  {
    if bs == [] then [] else BatchScores(judge(query, Texts(bs[0])), bs[0], parse) + ScoreAll(query, bs[1..], judge, parse)
  }

  /** The candidates of some scored pairs, in order. */
  function Chunks(u: seq<Scored>): (r: seq<Chunk>)
    ensures |r| == |u| && forall i :: 0 <= i < |u| ==> r[i] == u[i].chunk
  {
    if u == [] then [] else [u[0].chunk] + Chunks(u[1..])
  }

  /** Every reply of the run covers its batch. */
  ghost predicate AllCover(query: string, bs: seq<seq<Chunk>>, judge: Judge)
  {
    forall k :: 0 <= k < |bs| ==> Covers(judge(query, Texts(bs[k])), bs[k])
  }

  /**
   * Nothing is ever added, and nothing is dropped exactly when every reply
   * covers its batch; then the pairs hold the candidates in their order.
   */
  lemma {:induction false} ScoreAllKeeps(query: string, bs: seq<seq<Chunk>>, judge: Judge, parse: FloatParser)
    ensures |ScoreAll(query, bs, judge, parse)| <= |Flatten(bs)|
    ensures |ScoreAll(query, bs, judge, parse)| == |Flatten(bs)| <==> AllCover(query, bs, judge)
    ensures AllCover(query, bs, judge) ==> Chunks(ScoreAll(query, bs, judge, parse)) == Flatten(bs)
  {
    if bs != [] {
      var head := BatchScores(judge(query, Texts(bs[0])), bs[0], parse);
      ScoreAllKeeps(query, bs[1..], judge, parse);
      BatchKeepsAll(judge(query, Texts(bs[0])), bs[0], parse);
      assert AllCover(query, bs, judge) <==> Covers(judge(query, Texts(bs[0])), bs[0]) && AllCover(query, bs[1..], judge) by {
        if AllCover(query, bs[1..], judge) && Covers(judge(query, Texts(bs[0])), bs[0]) {
          forall k | 0 <= k < |bs| ensures Covers(judge(query, Texts(bs[k])), bs[k]) {
            if k > 0 { assert bs[k] == bs[1..][k - 1]; }
          }
        }
        if AllCover(query, bs, judge) {
          forall k | 0 <= k < |bs| - 1 ensures Covers(judge(query, Texts(bs[1..][k])), bs[1..][k]) {
            assert bs[1..][k] == bs[k + 1];
          }
        }
      }
      if AllCover(query, bs, judge) {
        ChunksConcat(head, ScoreAll(query, bs[1..], judge, parse));
        assert Chunks(head) == bs[0];
      }
    }
  }

  lemma ChunksConcat(a: seq<Scored>, b: seq<Scored>)
    ensures Chunks(a + b) == Chunks(a) + Chunks(b)
  {
    assert forall i :: 0 <= i < |a| ==> (a + b)[i] == a[i];
    assert forall i :: |a| <= i < |a + b| ==> (a + b)[i] == b[i - |a|];
  }

  /** The scores of some pairs, in order. */
  function ScoresOf(u: seq<Scored>): (r: seq<real>)
    ensures |r| == |u| && forall i :: 0 <= i < |u| ==> r[i] == u[i].score
  {
    if u == [] then [] else [u[0].score] + ScoresOf(u[1..])
  }

  /** `out.sort(key=lambda x: x[1], reverse=True)`. */
  function SortScored(u: seq<Scored>): (r: seq<Scored>)
    ensures |r| == |u|
  {
    Sorting.SortReals(u, ScoresOf(u))
  }

  /**
   * The sort rearranges the pairs without adding or losing any, puts them
   * best score first, and keeps pairs with equal scores in their order.
   */
  lemma SortScoredSpec(u: seq<Scored>)
    ensures multiset(SortScored(u)) == multiset(u)
    ensures forall i :: 0 <= i < |u| ==> Sorting.RankReals(ScoresOf(u))[i] < |u| && SortScored(u)[i] == u[Sorting.RankReals(ScoresOf(u))[i]]
    ensures forall i, j :: 0 <= i < j < |u| ==>
      SortScored(u)[i].score > SortScored(u)[j].score
      || (SortScored(u)[i].score == SortScored(u)[j].score && Sorting.RankReals(ScoresOf(u))[i] < Sorting.RankReals(ScoresOf(u))[j])
  {
    var keys := ScoresOf(u);
    var order := Sorting.RankReals(keys);
    Sorting.SortRealsPermutation(u, keys);
    forall i, j | 0 <= i < j < |u|
      ensures SortScored(u)[i].score > SortScored(u)[j].score
        || (SortScored(u)[i].score == SortScored(u)[j].score && order[i] < order[j])
    {
      assert Sorting.Above(keys, Sorting.RealLt(), order[i], order[j]);
    }
  }

  /** `rerank_with_llm` for a positive batch size: every batch scored, then sorted, not truncated. */
  function Reranked(query: string, cands: seq<Chunk>, b: nat, judge: Judge, parse: FloatParser): seq<Scored>
    requires b > 0
  {
    SortScored(ScoreAll(query, Batches(cands, b), judge, parse))
  }

  /**
   * The result holds every candidate exactly once, best score first, exactly
   * when every reply covers its batch; a reply with too few scores loses
   * candidates from the result.
   */
  lemma RerankedKeepsAll(query: string, cands: seq<Chunk>, b: nat, judge: Judge, parse: FloatParser)
    requires b > 0
    ensures |Reranked(query, cands, b, judge, parse)| <= |cands|
    ensures |Reranked(query, cands, b, judge, parse)| == |cands| <==> AllCover(query, Batches(cands, b), judge)
    ensures AllCover(query, Batches(cands, b), judge) ==>
      multiset(Chunks(ScoreAll(query, Batches(cands, b), judge, parse))) == multiset(cands)
  {
    BatchesCover(cands, b);
    ScoreAllKeeps(query, Batches(cands, b), judge, parse);
  }

  /** The batches still to come at offset `i` of the loop: none once `i` is past the end. */
  function BatchesAt(cands: seq<Chunk>, b: nat, i: nat): seq<seq<Chunk>>
    requires b > 0
  {
    if i < |cands| then Batches(cands[i..], b) else []
  }

  /** One step of the batch loop: the batch at offset `i`, and the rest from `i + b`. */
  lemma BatchesFrom(cands: seq<Chunk>, b: nat, i: nat, next: nat)
    requires b > 0 && i < |cands| && next == i + b
    ensures BatchesAt(cands, b, i) == [cands[i..Text.Min(next, |cands|)]] + BatchesAt(cands, b, next)
  {
    var s := cands[i..];
    var m := Text.Min(b, |s|);
    assert s[..m] == cands[i..Text.Min(i + b, |cands|)];
    assert Batches(s, b) == [s[..m]] + Batches(s[m..], b);
    if i + b < |cands| {
      assert s[m..] == cands[i + b..];
    } else {
      assert s[m..] == [];
    }
  }

  /**
   * The body of the `try` for one batch: the zipped pairs, or the whole batch
   * at 0.0 when the reply cannot be used.
   */
  method AppendBatch(out: seq<Scored>, reply: Option<Value>, batchItems: seq<Chunk>, parse: FloatParser)
    returns (out': seq<Scored>)
    ensures out' == out + BatchScores(reply, batchItems, parse)
  {
    var items := if reply.Some? then ScoreItems(reply.value) else None;
    if items.None? {
      out' := out + Zeros(batchItems);
    } else {
      var scores := items.value;
      ghost var zipped := Zip(batchItems, scores, parse);
      out' := out;
      var j := 0;
      while j < |batchItems| && j < |scores|
        invariant 0 <= j <= |batchItems| && j <= |scores| && j <= |zipped|
        invariant out' == out + zipped[..j]
      {
        assert zipped[..j + 1] == zipped[..j] + [Scored(batchItems[j], ScoreOf(parse, scores[j]))];
        out' := out' + [Scored(batchItems[j], ScoreOf(parse, scores[j]))];
        j := j + 1;
      }
      assert zipped[..j] == zipped;
    }
  }

  /** Scoring a run of batches starts with the first batch. */
  lemma ScoreAllStep(query: string, first: seq<Chunk>, rest: seq<seq<Chunk>>, judge: Judge, parse: FloatParser)
    ensures ScoreAll(query, [first] + rest, judge, parse) == BatchScores(judge(query, Texts(first)), first, parse) + ScoreAll(query, rest, judge, parse)
    ensures Prompts([first] + rest) == [Texts(first)] + Prompts(rest)
  {
    assert ([first] + rest)[1..] == rest;
  }

  lemma AppendAssoc<T>(a: seq<T>, b: seq<T>, c: seq<T>)
    ensures (a + b) + c == a + (b + c)
  {
  }

  /**
   * `rerank_with_llm`: `calls` are the candidate texts of each model call, in
   * order. A zero batch size raises (`range` refuses a zero step); a negative
   * one makes the range empty, so nothing is called and nothing returned.
   */
  method RerankWithLlm(query: string, candidates: seq<Chunk>, batch: int, judge: Judge, parse: FloatParser)
    returns (r: Result<seq<Scored>>, calls: seq<seq<string>>)
    ensures batch == 0 ==> r.Err? && calls == []
    ensures batch < 0 ==> r == Ok([]) && calls == []
    ensures batch > 0 ==> r == Ok(Reranked(query, candidates, batch, judge, parse))
    ensures batch > 0 ==> calls == Prompts(Batches(candidates, batch))
  {
    calls := [];
    if batch == 0 {
      return Err("range() arg 3 must not be zero"), calls;
    }
    var out: seq<Scored> := [];
    if batch > 0 {
      out, calls := ScoreBatches(query, candidates, batch, judge, parse);
    }
    r := Ok(SortScored(out));
  }

  /** The `for` loop over the batches: the unsorted output and the texts of each call. */
  method ScoreBatches(query: string, candidates: seq<Chunk>, batch: nat, judge: Judge, parse: FloatParser)
    returns (out: seq<Scored>, calls: seq<seq<string>>)
    requires batch > 0
    ensures out == ScoreAll(query, Batches(candidates, batch), judge, parse)
    ensures calls == Prompts(Batches(candidates, batch))
  {
    out, calls := [], [];
    ghost var all := ScoreAll(query, Batches(candidates, batch), judge, parse);
    ghost var allCalls := Prompts(Batches(candidates, batch));
    var i: nat := 0;
    assert candidates[0..] == candidates;
    assert out + all == all && calls + allCalls == allCalls;
    while i < |candidates|
      invariant out + ScoreAll(query, BatchesAt(candidates, batch, i), judge, parse) == all
      invariant calls + Prompts(BatchesAt(candidates, batch, i)) == allCalls
      decreases |candidates| - i
    {
      var next: nat := i + batch;
      var batchItems := candidates[i..Text.Min(next, |candidates|)];
      var texts := Texts(batchItems);
      var reply := judge(query, texts);
      ghost var rest := BatchesAt(candidates, batch, next);
      BatchesFrom(candidates, batch, i, next);
      ScoreAllStep(query, batchItems, rest, judge, parse);
      AppendAssoc(calls, [texts], Prompts(rest));
      calls := calls + [texts];
      ghost var before := out;
      out := AppendBatch(out, reply, batchItems, parse);
      AppendAssoc(before, BatchScores(reply, batchItems, parse), ScoreAll(query, rest, judge, parse));
      assert out + ScoreAll(query, rest, judge, parse) == all;
      assert calls + Prompts(rest) == allCalls;
      i := next;
    }
    assert out == out + ScoreAll(query, [], judge, parse);
    assert calls == calls + Prompts([]);
  }
}
