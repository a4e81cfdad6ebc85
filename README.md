# Banking assistant retrieval core, modelled in Dafny

The modelled system is a question-answering assistant over one customer's
credit-card data: an account summary, statements, transactions, payments and
the card agreement. This project models the pipeline that turns that data
into answers:

- **Text.** Whitespace normalisation and overlapping character windows
  (`backend/utils/text.py`).
- **Records.** Flattening the records into retrievable documents with short
  headers (`backend/loaders/json_loader.py`).
- **Corpus.** Building the lexical corpus, including per-month interest
  aggregates and agreement chunks (`backend/rag/corpus.py`).
- **Index nodes.** The nodes and their metadata for the vector and BM25
  indexes: dates, `ym` buckets and spend candidates (`core/indexes.py`).
- **Record models.** The two record models, their date and interest rules,
  and the bundle loader (`backend/models/banking.py`, `core/data.py`).
- **Months.** Date parsing and month detection in questions (`core/utils.py`).
- **Ranking.** BM25 search, the weighted hybrid merge, the freshness
  re-weighting and the current-month spend filter (`backend/rag/lexical.py`,
  `backend/rag/hybrid.py`, `core/retrieve.py`).
- **Context.** The context builder (`backend/context/builder.py`) and the
  batch LLM reranker (`backend/rerankers/llm_reranker.py`).
- **Interest explanations.** The "why was I charged interest" context: the
  last interest-bearing statement, and its transactions de-duplicated, newest
  first (`core/interest_explain.py`).
- **Answers.** Intent detection, the extraction prompt, and the formatting of
  one-line facts and explanations (`core/short_answers.py`).
- **Configuration.** The configuration merge and boolean switches
  (`core/config.py`).

There is one Dafny module per source file, plus two shared modules:

- `Common` holds the JSON-like `Value` with Python truthiness, the
  `dict.get` / `or` helpers, ASCII case mapping, `strip`, `in` on strings,
  `join`, slicing, numbers as text, and timestamps ordered by their
  calendar fields. Each module says which Python parse its parser stands
  for: `fromisoformat` alone keeps the text's wall-clock fields
  (`banking.py`, `utils.py`, `_parse_dt` in `retrieve.py`), while
  `astimezone(timezone.utc)` gives UTC fields (`indexes.py`,
  `interest_explain.py`, the spend filter in `retrieve.py`).
- `Sorting` holds Python's stable `sorted(..., reverse=True)`.

The model represents the program's pieces like this:

- **Records** are maps from field names to `Value`s.
- **Identity.** A chunk or node is identified by its position in the corpus.
- **Money** is integer cents.
- **Capabilities are parameters.** Everything the program obtains from a
  library or a service is a function parameter: the ISO date parser,
  `float`, `str`, `json.dumps`, the `:.2f` formatter, the Okapi scorer, the
  vector search, the LLM judge and the clock.

Where a function mutates a list in a loop, the model has a method with the
same loop. Each such method is proved equal to a specification function, and
the properties are proved about that function.

Choices and quirks:

- **Hybrid scores are not normalised.** `hybrid_merge` and
  `hybrid_with_freshness` add `alpha` times the raw vector scores to
  `1 - alpha` times the raw BM25 scores. The model follows that code.
- **No placeholder chunk.** `build_corpus` adds no chunk when the agreement
  text is missing, and the model does the same.
- **Quirks are stated as lemmas.** Several behaviours of the code that look
  unintended are modelled as written and stated as lemmas, not corrected:
  - `Text.ChunkLoopStalls`: `chunk_text` never ends when
    `overlap >= chunk_size` and the normalised text is longer than one
    window.
  - `LlmReranker.RerankedKeepsAll`: a short score list drops candidates.
  - `Corpus.FlattenedHasNoTransactionAggregate`: the transaction-interest
    aggregate is always empty.
  - `Data.InterestRulesDifferOnDescription` and
    `Data.InterestRulesDifferOnDisplayType`: the two interest rules disagree.
  - `ShortAnswers.StatementRuleShadowed`: the statement-interest intent
    cannot be reached through "how much".
  - `Retrieve.FreshRaises`: with `lam > 0`, `hybrid_with_freshness` raises a
    TypeError when a hit's `dt_iso` has no UTC offset, and an OverflowError
    from `math.exp` when it lies far in the future (such as
    "9999-12-31T23:59:59Z" with the default `lam` of 0.01).
  - `InterestExplain.NoOpeningNoTxns`: index statement nodes carry no
    opening date, so the interest context never lists transactions for them.

## Model

| member | source | states |
|---|---|---|
| Text.NormalizeIsJoinedWords | backend/utils/text.py:5-6 | `normalize_ws` is exactly the whitespace-separated words of the input joined by single spaces |
| Text.NormalizeWsShape | backend/utils/text.py:5-6 | the normalised text has no whitespace at either end, each whitespace character in it is one space followed by a non-space, and it is empty exactly when the input is all whitespace |
| Text.NormalizeWsKeepsWords | backend/utils/text.py:5-6 | `split()` sees the same words before and after normalising |
| Text.NormalizeWsIdempotent | backend/utils/text.py:5-6 | normalising twice equals normalising once |
| Text.WordsAreWords | backend/utils/text.py:6 | every piece `split()` yields is a non-empty run without whitespace |
| Text.JoinedWordsShape | backend/utils/text.py:6 | words joined by single spaces form text with no leading, trailing or doubled whitespace |
| Text.SplitJoin | backend/utils/text.py:6 | splitting words joined by single spaces gives the words back |
| Text.ChunkText | backend/utils/text.py:8-19 | `chunk_text` returns the windows of the normalised text (none for empty text) |
| Text.SlideWindows | backend/utils/text.py:12-19 | the sliding loop emits exactly the window sequence of the text |
| Text.ChunkLoopStalls | backend/utils/text.py:14-18 | with `overlap >= chunk_size` on text longer than one window, the next start is 0 again after the first window, so the loop never ends |
| Text.WindowAt | backend/utils/text.py:14-15 | window `i` is the slice of at most `chunk_size` characters from its start |
| Text.StartStep | backend/utils/text.py:18 | consecutive windows start `chunk_size - overlap` apart |
| Text.LastStart | backend/utils/text.py:16-17 | the loop stops once a window reaches the end of the text |
| Text.WindowSize | backend/utils/text.py:14-17 | every window is non-empty and at most `chunk_size` long, and all but the last are full |
| Text.WindowOverlap | backend/utils/text.py:14-18 | each window begins with the last `overlap` characters of the one before it |
| Text.WindowsCover | backend/utils/text.py:12-17 | the first window starts the text and the last one ends it |
| Text.WindowsShape | backend/utils/text.py:9-18 | no windows exactly for empty text, plus the size, cover and overlap properties together |
| Text.ChunkRoundTrip | backend/utils/text.py:8-19 | the first chunk followed by every later chunk minus its first `overlap` characters rebuilds the normalised text |
| JsonLoader.HeaderIdIsOrAll | backend/loaders/json_loader.py:40 | the chained `or` over the id fields is the `or` of the id list in order |
| JsonLoader.HeaderIdFirstTruthy | backend/loaders/json_loader.py:40 | the header id is the first truthy id field, or `accountId`'s falsy value when none is truthy |
| JsonLoader.ShortHeader | backend/loaders/json_loader.py:37-52 | the header loop produces the head followed by the collected extras |
| JsonLoader.HeaderShape | backend/loaders/json_loader.py:43-52 | the header starts with the upper-cased kind; it is only that without id, month and extras; there are at most two extras; a statement gets both exactly when interest and ending balance are set; a transaction shows `interestFlag=true` exactly when its flag is truthy |
| JsonLoader.AmountIsNotFlag | backend/loaders/json_loader.py:46-48 | the amount extra can never read as the interest flag |
| JsonLoader.Section | backend/loaders/json_loader.py:64 | a missing section is empty |
| JsonLoader.MakeDoc | backend/loaders/json_loader.py:64-71 | one record becomes one document: header, `\nJSON::`, the serialised record, and its metadata |
| JsonLoader.AppendDocs | backend/loaders/json_loader.py:63-71 | each section loop appends one document per record, in record order |
| JsonLoader.FlattenForRag | backend/loaders/json_loader.py:54-104 | the loops produce the flattened documents of all four sections |
| JsonLoader.FlattenedOrder | backend/loaders/json_loader.py:63-102 | one document per record: accounts, then statements, then transactions, then payments, records in order within each |
| JsonLoader.DocShape | backend/loaders/json_loader.py:66-70 | metadata keys are exactly `id`, `ym` and `raw`; `raw` is the record; the text is header, `\nJSON::` and the dump; a payment's id is `paymentId`, else `scheduledPaymentId` |
| JsonLoader.DocsMetaKeys | backend/loaders/json_loader.py:69 | every document of a section has exactly the metadata keys `id`, `ym` and `raw` |
| JsonLoader.NoInterestMeta | backend/loaders/json_loader.py:63-102 | no flattened document has an `interest` metadata key |
| Corpus.FindLabel | backend/rag/corpus.py:12 | the search finds the leftmost `label=` followed by a number character, and reports none only when there is none |
| Corpus.RunEnd | backend/rag/corpus.py:12 | the greedy `[-,\d\.]+` run ends at the first character outside the class |
| Corpus.NumText | backend/rag/corpus.py:12 | the captured group is the whole number run after the leftmost matching `label=`; it is absent exactly when no label matches |
| Corpus.DropCommas | backend/rag/corpus.py:14 | removing commas leaves no comma and never lengthens the text |
| Corpus.NumFromSpec | backend/rag/corpus.py:11-15 | `_num_from` gives a number exactly when a label matches and `float` accepts the comma-free capture, which keeps every other character in order |
| Corpus.TallySums | backend/rag/corpus.py:27-40 | the totals hold exactly the months some row adds to, each once, each with the sum of its rows' amounts |
| Corpus.SumWithout | backend/rag/corpus.py:32-40 | a month no row adds to totals zero |
| Corpus.TallyRows | backend/rag/corpus.py:29-40 | the accumulation loop computes the month totals of its rows |
| Corpus.NoInterestNoTally | backend/rag/corpus.py:35-40 | rows without an `interest` metadata key add nothing to the transaction aggregate |
| Corpus.SortedMonths | backend/rag/corpus.py:41 | sorting keeps as many months, all from the input |
| Corpus.SortedMonthsAscending | backend/rag/corpus.py:41 | distinct months come out strictly ascending, each exactly once |
| Corpus.EmittedSpec | backend/rag/corpus.py:41-44 | one aggregate chunk per contributing month, months ascending, each built from the month's sum |
| Corpus.AppendAggregates | backend/rag/corpus.py:41-44 | emitting one metric appends its aggregate chunks |
| Corpus.AppendMonths | backend/rag/corpus.py:41-44 | the loop over the sorted totals appends one chunk per month, in order |
| Corpus.AgreementChunks | backend/rag/corpus.py:50-51 | one `AGREEMENT: ` chunk per window, tagged with the agreement file |
| Corpus.AppendAgreement | backend/rag/corpus.py:50-51 | the agreement loop appends one chunk per window |
| Corpus.BuildCorpus | backend/rag/corpus.py:17-62 | the corpus is the rows, the two aggregates, the agreement chunks and the schema chunk |
| Corpus.AssembleShape | backend/rag/corpus.py:21-62 | the corpus starts with the flattened rows unchanged, then the aggregates, then the agreement chunks, and ends with the schema chunk, so it is never empty |
| Corpus.FlattenedHasNoTransactionAggregate | backend/rag/corpus.py:35-40 | on flattened rows the transaction-interest aggregate is always empty |
| Indexes.FirstPicks | core/indexes.py:30-34 | `_first` returns the first truthy value, and None when there is none |
| Indexes.First2 | core/indexes.py:30-34 | `_first` of two values |
| Indexes.First3 | core/indexes.py:30-34 | `_first` of three values |
| Indexes.Ym | core/indexes.py:37-48 | `_ym` is None exactly when the date does not parse, and otherwise the `YYYY-MM` bucket of the parsed date |
| Indexes.StatementMetaSpec | core/indexes.py:125-149 | a statement's date is closing, else opening, else due date (by truthiness); its `ym` is that date's bucket |
| Indexes.TransactionDtSpec | core/indexes.py:151-188 | a transaction's date is the transaction date, else the posting date; its `ym` is that date's bucket |
| Indexes.TransactionSpendSpec | core/indexes.py:157-159 | spend exactly when a debit whose normalised type is not excluded; debit when the indicator is missing or reads `1` |
| Indexes.AuthDateIgnored | core/indexes.py:151-188 | the authorisation date never reaches the metadata |
| Indexes.PaymentMetaSpec | core/indexes.py:190-210 | a payment's date is the payment date, else the scheduled date; its `ym` is that date's bucket |
| Indexes.Nodes | core/indexes.py:103-210 | one node per record |
| Indexes.AppendNodes | core/indexes.py:103-210 | each per-kind loop appends one node per record, in order |
| Indexes.BuildIndexes | core/indexes.py:98-223 | the node list `build_indexes` indexes, or the error on an empty one |
| Indexes.CollectNodes | core/indexes.py:101-223 | the node-collecting loops and the emptiness check |
| Indexes.AllNodesOrder | core/indexes.py:103-220 | accounts, statements, transactions, payments in record order, then the agreement node exactly when the agreement text is non-empty |
| Indexes.BuiltFailsOnlyWhenEmpty | core/indexes.py:222-223 | `build_indexes` raises exactly when there are no records and no agreement text |
| Banking.ParseDt | backend/models/banking.py:8-14 | no date exactly for a falsy value, a non-string or text the ISO parser rejects; otherwise the parser's result |
| Banking.StatementYmByPresence | backend/models/banking.py:58-62 | the statement date is chosen by presence (closing, opening, due), not by whether it parses |
| Banking.StatementYmBadClosing | backend/models/banking.py:58-62 | a set but unreadable closing date gives no `ym`, whatever the other dates are |
| Banking.TransactionYm | backend/models/banking.py:84-88 | a transaction's `ym` is the bucket of its chosen date |
| Banking.TransactionDateOnlyFrom | backend/models/banking.py:79-88 | only the transaction and posting dates affect the date and `ym` |
| Banking.InterestFlagOnlyFrom | backend/models/banking.py:92-95 | the flag reads only `transactionType`, `displayTransactionType`, `description` and `merchantName`: changing any other field never changes it |
| Banking.InterestFlagIgnoresCase | backend/models/banking.py:93-95 | both texts are upper-cased, so lower-casing any field never changes the flag |
| Banking.InterestFlagFirstOnly | backend/models/banking.py:93-95 | once `transactionType` is set, `displayTransactionType` cannot change the flag |
| Banking.PaymentYm | backend/models/banking.py:114-118 | a payment's `ym` is the bucket of its chosen date |
| Banking.PaymentDateOnlyFrom | backend/models/banking.py:109-118 | only the payment and scheduled dates affect `ym` |
| Data.StatementYmByPresence | core/data.py:25-29 | this record model also chooses the statement date by presence |
| Data.YmModelsAgree | core/data.py:25-66 | both record models give the same `ym` whenever the ISO parser reads the chosen date |
| Data.InterestFlagOnlyFrom | core/data.py:49-53 | the flag reads only `transactionType`, `displayTransactionType` and `merchantName`: changing any other field never changes it |
| Data.InterestFlagIgnoresCase | core/data.py:50-53 | every field read is case-folded, so lower-casing any field never changes the flag |
| Data.InterestRulesDifferOnDescription | core/data.py:47-53 | a transaction known only by an interest description is flagged by the other model and not by this one |
| Data.InterestRulesDifferOnDisplayType | core/data.py:47-53 | an `interest_charged` display type behind a non-interest type is flagged only by this model |
| Data.ReadJson | core/data.py:74-76 | a missing file reads as an empty list, and a present one as its contents |
| Data.AccountSummaryFile | core/data.py:80-82 | the hyphenated account file name wins whenever that file exists |
| Data.AccountSummaryPreferred | core/data.py:78-88 | the account records come from the hyphenated file when it exists, and are empty when neither file exists |
| Utils.ParseIso | core/utils.py:6-14 | `parse_iso`: None for a falsy value or a non-string; otherwise the ISO parser, falling back to the date-only format |
| Utils.YmFromDt | core/utils.py:16-17 | None exactly without a moment; otherwise seven characters `YYYY-MM` naming the moment's year and month |
| Utils.FindNumericYm | core/utils.py:20 | finds the leftmost `20dd-dd` match, and none only when there is none |
| Utils.FindMonthYm | core/utils.py:22 | finds the leftmost month-name-and-year match, and none only when there is none |
| Utils.SkipLetters | core/utils.py:22 | the `[a-z]*` run ends at the first non-letter |
| Utils.SkipSpaces | core/utils.py:22 | the `\s*` run ends at the first non-space |
| Utils.DetectYmNumericWins | core/utils.py:20-21 | any numeric form wins, and the leftmost one is returned verbatim |
| Utils.DetectYmMonthForm | core/utils.py:22-26 | without a numeric form, the leftmost month-name form gives its year and the month's number |
| Utils.DetectYmNone | core/utils.py:19-27 | None exactly when neither pattern matches anywhere |
| Utils.DetectYmNoMonthCheck | core/utils.py:20-21 | the numeric form is not checked against the calendar (`2024-13` is returned) |
| Lexical.TokenizeSpec | backend/rag/lexical.py:6-7 | tokens are non-empty runs without whitespace, and joined by spaces they are the lower-cased, normalised text |
| Lexical.TokenizeLower | backend/rag/lexical.py:6-7 | tokenising does not depend on case |
| Lexical.CorpusTokens | backend/rag/lexical.py:12 | one token list per chunk, in order |
| Lexical.HitsAt | backend/rag/lexical.py:19 | each kept position becomes its chunk paired with its score |
| Lexical.TopPositions | backend/rag/lexical.py:18 | the kept positions are a stable descending ranking, cut to `min(k, n)` |
| Lexical.TopPositionsOrder | backend/rag/lexical.py:18 | kept positions descend by score, ties in increasing position, none repeated |
| Lexical.TopPositionsAreTop | backend/rag/lexical.py:18 | no left-out position outscores a kept one, and a tied left-out one comes later |
| Lexical.BM25Store.constructor | backend/rag/lexical.py:10-13 | the store holds the chunks, their token lists and the scorer built over them |
| Lexical.BM25Store.Scores | backend/rag/lexical.py:17 | one score per chunk |
| Lexical.BM25Store.Search | backend/rag/lexical.py:15-19 | `min(k, n)` hits, each a chunk paired with its own score |
| Lexical.SearchOrder | backend/rag/lexical.py:18-19 | hits come best first, ties in corpus order, no chunk twice |
| Lexical.HitIds | backend/rag/lexical.py:19 | the hits' chunk positions, in order |
| Lexical.SearchIsTop | backend/rag/lexical.py:18 | every kept hit outranks every chunk left out |
| Lexical.SearchIds | backend/rag/lexical.py:18-19 | the hits are at exactly the top positions |
| Hybrid.Ids | backend/rag/hybrid.py:4-7 | the identities of the hits, in order |
| Hybrid.DedupSpec | backend/rag/hybrid.py:4-7 | first-appearance de-duplication keeps every identity, each once |
| Hybrid.AccumulateKeys | backend/rag/hybrid.py:4-7 | a loop adds exactly its hits' identities to the dictionaries |
| Hybrid.AccumulateOrder | backend/rag/hybrid.py:4-7 | new identities are appended where they first appear |
| Hybrid.WeightedByScales | backend/rag/hybrid.py:5-7 | adding weighted scores one by one equals weighting their sum |
| Hybrid.AccumulateScore | backend/rag/hybrid.py:4-7 | a loop adds the weighted scores of an identity's hits to its score |
| Hybrid.CombineKeys | backend/rag/hybrid.py:4-7 | after both loops the dictionaries hold exactly the identities of both lists |
| Hybrid.CombineOrder | backend/rag/hybrid.py:4-7 | identities are in first-appearance order, vector list first |
| Hybrid.CombineScore | backend/rag/hybrid.py:4-7 | each score is `alpha` times the identity's vector scores plus `1 - alpha` times its lexical scores |
| Hybrid.ScoresInOrder | backend/rag/hybrid.py:8 | the combined scores in insertion order are what `sorted` compares |
| Hybrid.HitsOf | backend/rag/hybrid.py:9 | each ranked position becomes its identity, item and combined score |
| Hybrid.Ranked | backend/rag/hybrid.py:8 | the kept positions are a stable descending ranking of the combined scores, cut to `min(k, n)` |
| Hybrid.AddAll | backend/rag/hybrid.py:4-7 | one accumulation loop |
| Hybrid.HybridMerge | backend/rag/hybrid.py:1-9 | `hybrid_merge` computes the merged ranking |
| Hybrid.RankedHitsDistinct | backend/rag/hybrid.py:8-9 | ranked hits name distinct identities |
| Hybrid.RankedHitsOrder | backend/rag/hybrid.py:8 | ranked hits descend by score, ties in insertion order |
| Hybrid.MergedLength | backend/rag/hybrid.py:8-9 | `min(k, n)` results, where `n` counts the distinct identities of both lists |
| Hybrid.MergedIds | backend/rag/hybrid.py:4-9 | every result comes from one of the lists, and none appears twice |
| Hybrid.MergedScores | backend/rag/hybrid.py:4-9 | each result is scored with its weighted vector scores plus its weighted lexical scores; a list that lacks it adds 0 |
| Hybrid.MergedOrder | backend/rag/hybrid.py:4-8 | results descend by score; ties keep first-appearance order |
| Hybrid.MergedVectorOnly | backend/rag/hybrid.py:4-9 | with no lexical hits, the result is the vector hits scaled by `alpha`, stably sorted and cut |
| Hybrid.VectorOnlyCombined | backend/rag/hybrid.py:4-5 | with no lexical hits, the dictionaries hold the scaled vector hits in order |
| Hybrid.HitsOfSorted | backend/rag/hybrid.py:8-9 | ranking dictionaries that hold a list of hits is that list stably sorted and cut |
| Builder.BuildContext | backend/context/builder.py:8-16 | the context never has more than `kK` hits |
| Builder.ContextVectorOnly | backend/context/builder.py:11-16 | without hybrid retrieval or a BM25 store, the context is the first `kK` vector hits, `min(kK, n)` of them |
| Builder.ContextHybrid | backend/context/builder.py:11-16 | in hybrid mode the context is the first `kK` of the merge, with distinct chunks and non-increasing scores |
| Builder.ContextSearchesAtKN | backend/context/builder.py:10-12 | both stores are queried with `k = kN` only |
| LlmReranker.Texts | backend/rerankers/llm_reranker.py:14 | each candidate text in the prompt is its first 1200 characters |
| LlmReranker.Zeros | backend/rerankers/llm_reranker.py:25-26 | the whole batch, each candidate scored 0.0 |
| LlmReranker.Zip | backend/rerankers/llm_reranker.py:20-24 | as many pairs as the shorter side; each score is the item's `float`, or 0.0 |
| LlmReranker.BatchScores | backend/rerankers/llm_reranker.py:17-26 | a batch appends at most its own candidates, in order |
| LlmReranker.UnusableReplyScoresZero | backend/rerankers/llm_reranker.py:17-26 | an unusable reply scores the whole batch 0.0 and drops nothing |
| LlmReranker.ListedScores | backend/rerankers/llm_reranker.py:19-24 | with a score list, candidate `i` gets item `i`'s `float`, or 0.0 when that one item fails; surplus items are ignored |
| LlmReranker.BatchKeepsAll | backend/rerankers/llm_reranker.py:20 | a batch keeps every candidate exactly when its reply covers it |
| LlmReranker.Batches | backend/rerankers/llm_reranker.py:12-13 | every batch is non-empty and at most `batch` long |
| LlmReranker.BatchesCover | backend/rerankers/llm_reranker.py:12-13 | the batches are the candidates in order, all but the last full |
| LlmReranker.Prompts | backend/rerankers/llm_reranker.py:14 | one prompt per batch, each with that batch's cut texts |
| LlmReranker.ScoreAllKeeps | backend/rerankers/llm_reranker.py:12-26 | nothing is added, and nothing is lost exactly when every reply covers its batch |
| LlmReranker.SortScoredSpec | backend/rerankers/llm_reranker.py:27 | the sort is a permutation, best score first, ties kept in order |
| LlmReranker.RerankedKeepsAll | backend/rerankers/llm_reranker.py:9-28 | the result holds every candidate exactly once exactly when every reply covers its batch; a short score list loses candidates |
| LlmReranker.AppendBatch | backend/rerankers/llm_reranker.py:17-26 | one `try` body appends the batch's scored pairs |
| LlmReranker.RerankWithLlm | backend/rerankers/llm_reranker.py:9-28 | a zero batch size raises, a negative one calls nothing and returns nothing, and otherwise the result is the sorted scored candidates, one call per batch |
| LlmReranker.ScoreBatches | backend/rerankers/llm_reranker.py:12-26 | the batch loop makes one call per batch and collects the unsorted pairs |
| Retrieve.FreshnessWeight | core/retrieve.py:9-21 | raises exactly when `lam > 0` and `dt_iso` is text that parses to a moment that is without UTC offset (TypeError) or whose decay is too large for a double (OverflowError); otherwise the weight is never below 0.2, is 1.0 without a date, without decay or for an unparseable date, and is otherwise the decay floored at 0.2 |
| Retrieve.Reweigh | core/retrieve.py:36-39 | re-weighting changes only the scores, each multiplied by its node's weight |
| Retrieve.Freshened | core/retrieve.py:35-39 | one weighted hit per identity, in insertion order |
| Retrieve.HybridWithFreshness | core/retrieve.py:24-41 | `hybrid_with_freshness` raises exactly when some merged node's weight raises (a naive or far-future `dt_iso` with `lam > 0`), and otherwise returns the fresh ranking of both hit lists |
| Retrieve.FreshenAll | core/retrieve.py:35-39 | the loop over the merged scores raises exactly when some merged node's weight raises; otherwise it builds, in insertion order, each node with its score times its freshness weight |
| Retrieve.WeighHit | core/retrieve.py:36-39 | one loop step raises exactly when the node's weight raises, and otherwise gives the node with its merged score times its weight |
| Retrieve.FreshRaises | core/retrieve.py:17-21 | the ranking raises only when `lam > 0` and some hit's `dt_iso` parses to a moment without offset or one whose decay overflows; when two hits with one identity carry one node, such a hit always makes it raise |
| Retrieve.FreshHitsScores | core/retrieve.py:36-39 | each ranked hit carries its merged score times its weight |
| Retrieve.ReweighUnit | core/retrieve.py:17 | without decay, re-weighting changes nothing |
| Retrieve.FreshAsRanked | core/retrieve.py:28-41 | the result, when nothing raises, is the stable ranking of the re-weighted dictionaries |
| Retrieve.FreshLength | core/retrieve.py:41 | when nothing raises, `min(kN, n)` results |
| Retrieve.FreshScores | core/retrieve.py:28-39 | when nothing raises, each result comes from one of the lists and is scored with its merged score times its freshness weight |
| Retrieve.FreshDistinct | core/retrieve.py:28-41 | when nothing raises, no node appears twice |
| Retrieve.FreshHitsOrder | core/retrieve.py:40 | ranked hits descend by weighted score, ties in insertion order |
| Retrieve.FreshOrder | core/retrieve.py:40-41 | when nothing raises, results descend by weighted score; ties keep first-appearance order |
| Retrieve.FreshWithoutDecay | core/retrieve.py:17-41 | with `lam <= 0` nothing raises and the result is exactly `hybrid_merge`'s |
| Retrieve.FreshenUnit | core/retrieve.py:17 | without decay a score is unchanged |
| Retrieve.FilterSpendCurrentMonth | core/retrieve.py:43-67 | the filter loop keeps exactly the nodes the filter accepts |
| Retrieve.SpendFilteredSpec | core/retrieve.py:50-67 | the result is an order-preserving selection of exactly the accepted nodes, and keeps every node that is not a transaction |
| Retrieve.WindowIsCurrentMonth | core/retrieve.py:48-65 | the window from the month start to now is exactly now's month, up to now |
| Retrieve.KeptTransactionIsThisMonth | core/retrieve.py:53-66 | a kept transaction is a spend candidate with a parseable date in now's month, not after now |
| InterestExplain.ContainsAny | core/interest_explain.py:18 | true exactly when some key phrase occurs in the text |
| InterestExplain.IsWhyInterestIntent | core/interest_explain.py:11-18 | true exactly when the lower-cased question contains a key phrase |
| InterestExplain.WhyIntentIgnoresCase | core/interest_explain.py:12 | the question's case does not matter |
| InterestExplain.LastStatementNone | core/interest_explain.py:20-34 | nothing is picked exactly when no node is a dated statement with positive interest |
| InterestExplain.LastStatementChosen | core/interest_explain.py:20-34 | the pick qualifies, has the latest date, and is the first of the latest |
| InterestExplain.PickLastInterestStatement | core/interest_explain.py:20-34 | the loop returns the metadata of that pick |
| InterestExplain.TxnsInWindow | core/interest_explain.py:39-49 | the loop keeps the transactions in the window, in input order |
| InterestExplain.TxnsInWindowSpec | core/interest_explain.py:36-49 | an order-preserving selection of exactly the transactions dated inside the inclusive window; none when either bound is missing |
| InterestExplain.ByDateDesc | core/interest_explain.py:72 | sorting keeps the number of transactions |
| InterestExplain.ByDateDescSpec | core/interest_explain.py:72 | the sort is a permutation, newest `dt_iso` first |
| InterestExplain.DedupSpec | core/interest_explain.py:71-79 | no key repeats, nothing new appears, and every input key survives |
| InterestExplain.DedupPrefix | core/interest_explain.py:73-80 | more input only appends: what was kept is never revised |
| InterestExplain.DedupDescending | core/interest_explain.py:72-79 | de-duplicating a newest-first list keeps it newest first |
| InterestExplain.CapReached | core/interest_explain.py:80 | once the cap is reached, the rest of the input cannot change the result |
| InterestExplain.DedupCap | core/interest_explain.py:70-80 | the loop returns the first `Cap` of the de-duplicated list |
| InterestExplain.BuildInterestContext | core/interest_explain.py:51-82 | the context is computed from the vector hits followed by the BM25 hits, or the vector hits alone when BM25 raised |
| InterestExplain.ContextStatement | core/interest_explain.py:59-68 | there is no statement exactly when no node qualifies; without a statement, or without both its dates, there are no transactions |
| InterestExplain.NoOpeningNoTxns | core/interest_explain.py:62-66 | among nodes without `openingDateTime`, as the index builder's statement nodes are, no transactions are ever returned |
| InterestExplain.StatementTxnsFromWindow | core/interest_explain.py:68-80 | at most `Cap` transactions, all retrieved and inside the statement's period |
| InterestExplain.StatementTxnsOrdered | core/interest_explain.py:72-79 | transactions come newest first, no key twice |
| InterestExplain.StatementTxnsComplete | core/interest_explain.py:70-80 | below the cap, every key of the period's transactions is represented |
| ShortAnswers.Fields | core/short_answers.py:108-138 | every intent asks for at least one field |
| ShortAnswers.IntentOf | core/short_answers.py:16-65 | the rules always give a named intent |
| ShortAnswers.AccountIntentOf | core/short_answers.py:37-65 | the payment, balance, status, transaction and spend rules always give a named intent |
| ShortAnswers.DetectIntent | core/short_answers.py:13-65 | `detect_intent` never returns an unknown intent |
| ShortAnswers.DetectIntentIgnoresCase | core/short_answers.py:14 | the question's case does not matter |
| ShortAnswers.DetectIntentIgnoresPadding | core/short_answers.py:14 | surrounding whitespace does not matter |
| ShortAnswers.IntentOfEmpty | core/short_answers.py:16-65 | empty text matches no rule |
| ShortAnswers.DetectIntentBlank | core/short_answers.py:14-65 | a missing, empty or blank question is `generic` |
| ShortAnswers.UnmatchedIsGeneric | core/short_answers.py:16-65 | text without any of the key words is `generic` |
| ShortAnswers.InterestPhrasesAbsent | core/short_answers.py:26-34 | without "interest", none of the interest phrases can match |
| ShortAnswers.PaymentPhrasesAbsent | core/short_answers.py:38-43 | without "payment", none of the payment phrases can match |
| ShortAnswers.BalancePhrasesAbsent | core/short_answers.py:46-48 | without "balance", none of the balance phrases can match |
| ShortAnswers.StatusPhrasesAbsent | core/short_answers.py:50 | without "status", none of the status phrases can match |
| ShortAnswers.SpendPhrasesAbsent | core/short_answers.py:58-62 | without "spend", none of the spending phrases can match |
| ShortAnswers.ReasonFirst | core/short_answers.py:17-18 | `interest_reason` exactly when "interest" comes with "why" or "reason" |
| ShortAnswers.HowMuchInterest | core/short_answers.py:21-25 | otherwise "how much" with "interest" is an interest amount: the last one exactly when "last" or "previous" occurs |
| ShortAnswers.StatementRuleShadowed | core/short_answers.py:21-31 | `interest_total_statement` needs "statement cycle" and can never come with "how much" |
| ShortAnswers.ExplanatoryIffReason | core/short_answers.py:67-71 | an intent is explanatory exactly when the question asks why interest was charged |
| ShortAnswers.SuffixIndex | core/short_answers.py:77 | the index into the suffix table is a digit |
| ShortAnswers.OrdinalSuffix | core/short_answers.py:76-77 | `ordinal` writes the number with its English suffix: "th" for 11 to 13 modulo 100, else "st", "nd", "rd" for last digits 1 to 3, else "th" |
| ShortAnswers.SuffixIndexDigits | core/short_answers.py:77 | the index is the last digit when the tens digit is not 1 and the last digit is below 4, else 0 |
| ShortAnswers.SuffixTable | core/short_answers.py:77 | the four strides of the table are "th", "st", "nd" and "rd" |
| ShortAnswers.Group | core/short_answers.py:96 | the grouped number starts with a digit |
| ShortAnswers.GroupValue | core/short_answers.py:96 | the grouping only inserts commas: its digits read back as the number |
| ShortAnswers.GroupShape | core/short_answers.py:96 | there is a comma before every group of three digits and nowhere else |
| ShortAnswers.DecimalsSpec | core/short_answers.py:96 | the cents are always written as two digits |
| ShortAnswers.FmtMoneyShape | core/short_answers.py:92-98 | "" for None; otherwise `$`, a minus exactly for negative amounts, the units, a point and two digits |
| ShortAnswers.FmtMoneyValue | core/short_answers.py:92-98 | the digits written read back as the absolute amount in cents |
| ShortAnswers.PromptAsksForFields | core/short_answers.py:140-157 | the prompt names every field of the intent, quoted |
| ShortAnswers.PromptCarriesInputs | core/short_answers.py:141-157 | the prompt contains the context and the question as given |
| ShortAnswers.TailMarksOmission | core/short_answers.py:296-300 | at most two drivers are shown, and " and others" is added exactly when some are left out |
| ShortAnswers.ReasonPiecesShape | core/short_answers.py:266-300 | one to three sentences, starting with the headline, ending with the driver sentence when there are drivers; the headline stands alone exactly when there is no reason, period bound or driver |
| ShortAnswers.FirstSentenceSpec | core/short_answers.py:306 | the first sentence is the longest prefix without `.`, `!` or `?` |
| ShortAnswers.FallbackSpec | core/short_answers.py:304-309 | "I couldn't find that." unless the stripped `answer_text` is a string with a non-empty first sentence; then that sentence followed by "." |
| ShortAnswers.CollectPostedParts | core/short_answers.py:193-196 | the loop collects the amount, merchant and type parts that are present |
| ShortAnswers.CollectReasonPieces | core/short_answers.py:273-300 | the loop collects the explanation sentences |
| ShortAnswers.FormatAnswer | core/short_answers.py:162-309 | `format_answer` gives the fact sentence, the transaction sentence, the explanation or the generic answer; None where Python raises |
| ShortAnswers.PostedAnswerSpec | core/short_answers.py:188-198 | the transaction answer always exists, opens with its fixed phrase, has at most three parts (none exactly when no detail is known), and mentions each part |
| ShortAnswers.PostedAnswerMentions | core/short_answers.py:197-198 | the sentence keeps its opening and contains every part it is given |
| ShortAnswers.ReasonAnswerSpec | core/short_answers.py:266-302 | an explanation starts with its headline and is never empty; it fails only for a truthy non-string reason |
| ShortAnswers.MissingFieldsFallBack | core/short_answers.py:162-309 | without any of the requested fields, every intent except the two that always answer falls through to the generic answer |
| ShortAnswers.AnswerNonEmpty | core/short_answers.py:162-309 | every answer given is non-empty |
| Config.Merged | core/config.py:21-28 | the merged keys are the base's plus the update's |
| Config.MergedEntries | core/config.py:22-27 | base values stay under keys the update lacks; update values win unless both sides are dictionaries, which are merged recursively |
| Config.MergedNothing | core/config.py:21-28 | merging an empty update leaves the base |
| Config.MergedIntoNothing | core/config.py:21-28 | merging into an empty base gives the update |
| Config.MergedSelf | core/config.py:21-28 | a dictionary merged with itself is unchanged |
| Config.MergedIdempotent | core/config.py:21-28 | merging the same update twice equals merging it once |
| Config.DeepUpdate | core/config.py:21-28 | `_deep_update`'s loop and recursion compute the merge without changing its inputs |
| Config.ToBoolIgnoresCaseAndPadding | core/config.py:55-56 | case and surrounding whitespace do not change the switch value |
| Config.ToBoolRoundTrip | core/config.py:39-56 | a boolean written with `str` reads back as itself, so the defaults survive an unset variable |
| Sorting.Rank | backend/rag/lexical.py:18 | every position exactly once, higher keys first, ties in increasing position |
| Sorting.RankUnique | backend/rag/hybrid.py:8 | a stable descending order of all positions is unique |
| Sorting.RankReals | backend/rag/lexical.py:18 | the stable descending ranking of real scores |
| Sorting.SortReals | core/retrieve.py:40 | sorting by real score keeps the length |
| Sorting.SortRealsPermutation | backend/rerankers/llm_reranker.py:27 | sorting by real score is a permutation |
| Sorting.SortDesc | core/interest_explain.py:72 | sorting by key keeps the length |
| Sorting.SortDescPermutation | core/interest_explain.py:72 | sorting by key is a permutation |

## Left out

- **Floating point.** Scores and weights are real numbers. `exp` in the
  freshness decay is a parameter giving the exact value, as are `float()`
  and the `:.2f` formatting. Its overflow is modelled: a value of at least
  `2^1024 - 2^970` (rounded to infinity) raises, as `math.exp` does; rounding
  of smaller values is not modelled.
- **Time, files, environment and services.** The clock, file reading,
  environment variables, FAISS, the embedding model, the Okapi BM25
  formula, the LLM client and its JSON decoding are parameters or not
  modelled. `load_all`, the file and environment reading of `load_config`,
  `_load_agreement_text`, `_probe_embed_dim` and the construction of the
  FAISS and BM25 indexes are not part of this model.
- **Rest of the repository.** `app.py`, the prompt templates, the other
  rerankers and the LangChain BM25 wrapper are not part of this model.
- **Python equality.** `1 == 1.0` as dictionary keys is not modelled.
  Identity (`id()` of a node) is the node's corpus position.
- **Dictionary order.** Dictionary key order is not modelled, so
  `Config.DeepUpdate` visits the update's keys in any order; the result does
  not depend on it.
- **Validators.** Pydantic's validator invocation is not modelled; the
  validators themselves are plain functions. Pydantic v2 runs a
  `field_validator` only for a field the input supplies, since defaults are
  not validated without `validate_default=True`, which neither
  `backend/models/banking.py` nor `core/data.py` sets. So `ym`, `date_dt` and
  `interestFlag` keep their defaults unless the raw record carries those
  keys; the `Banking` and `Data` validators describe what runs in that case.
- **Unicode.** Case mapping and `\d` are ASCII: a non-ASCII decimal digit
  such as `٢` matches `\d` in Python but is not a digit in the model, and
  under `re.I` Python's `[a-z]` also matches `ſ` and the Kelvin sign, which
  the model's letter test does not. Whitespace is Python's Unicode
  `isspace` set.
- **Dates.** `pretty_date` is an abstract renderer: only its emptiness
  matters to the answers.
- ShortAnswers.FmtMoneyShape: amounts are integer cents, so the rounding of
  a float to two decimals is not modelled.
- ShortAnswers.FmtMoneyValue: same cents model.
- Text.ChunkText: requires `chunk_size > 0` and `overlap < chunk_size`, which
  the only caller (1000 and 200) meets. With `overlap >= chunk_size` the
  source loops forever once the normalised text is longer than one window,
  as `Text.ChunkLoopStalls` shows; on shorter text it returns the one chunk,
  a case this requires also excludes.
- LlmReranker.BatchScores: a `scores` value that is a JSON object (a
  dictionary) is treated as not iterable, so the batch scores 0.0. Python
  would iterate its keys in insertion order, and the model's maps have no
  order.
- InterestExplain.ByDateDescSpec: the sort key is the `dt_iso` text compared
  as a string. A non-string `dt_iso` is keyed as "".
- InterestExplain.BuildInterestContext: `getattr(n, "node", n)` unwrapping is
  not modelled; hits are nodes already.
- ShortAnswers.ReasonPiecesShape: states the position of the headline and
  the driver sentence and the number of sentences, but not the wording of
  the middle sentence. The wording is fixed by `CollectReasonPieces`.
- **Intent names.** `ShortAnswers.Intent.Other` stands for an intent
  string that is none of the known names; `Other("current_balance")` is not
  a value the model gives meaning to.
- Retrieve.SpendFilteredSpec: a `dt_iso` without UTC offset is read as UTC.
  Python's `astimezone` reads such a moment in the machine's local time
  zone, which is not modelled.
- Indexes.Ym: `_to_utc` calls `astimezone` too, so a `dt_iso` without
  offset is bucketed by its own fields, not by the local-time moment Python
  converts to UTC. The same holds for `Indexes.StatementMetaSpec`,
  `Indexes.TransactionDtSpec` and `Indexes.PaymentMetaSpec`, which use it.
- InterestExplain.TxnsInWindowSpec: `_to_dt` calls `astimezone` too, so
  dates without offset are compared as UTC rather than as local time; the
  same holds for `InterestExplain.LastStatementChosen` and the context
  lemmas built on these.
- Lexical.BM25Store.Scores: states only that there is one score per chunk,
  since the Okapi scorer is a parameter.
