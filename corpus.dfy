/**
 * `backend/rag/corpus.py`: the retrieval corpus. It holds the flattened records,
 * then per-month interest aggregates, then the agreement windows, then one schema
 * chunk.
 *
 * The flattened rows, the agreement's text (None when there is no
 * `agreement.pdf`), `float()` on text and the `:.2f` rendering are inputs.
 */
module Corpus {
  import opened Common
  import Sorting
  import Text
  import JsonLoader

  /** `float(s)`: a number, or None where Python raises. */
  type FloatParser = string -> Option<real>

  // ---------------------------------------------------------------------------
  // _num_from
  // ---------------------------------------------------------------------------

  /** A character of the class `[-,\d\.]`. */
  predicate NumChar(c: char)
  {
    c == '-' || c == ',' || c == '.' || IsDigit(c)
  }

  /** `label=` followed by at least one number character starts at `i`. */
  predicate LabelAt(name: string, text: string, i: nat)
  {
    var n := |name|;
    i + n + 1 < |text| && text[i..i + n] == name && text[i + n] == '=' && NumChar(text[i + n + 1])
  }

  /** The leftmost index at or after `i` where `label=` and a number character start. */
  function FindLabel(name: string, text: string, i: nat): (r: Option<nat>)
    ensures r.Some? ==> i <= r.value && LabelAt(name, text, r.value)
    ensures r.Some? ==> forall j :: i <= j < r.value ==> !LabelAt(name, text, j)
    ensures r.None? ==> forall j :: i <= j ==> !LabelAt(name, text, j)
    decreases |text| - i
  {
    if i + |name| + 1 >= |text| then None
    else if LabelAt(name, text, i) then Some(i)
    else FindLabel(name, text, i + 1)
  }

  /** The end of the run of number characters starting at `j` (the greedy `+`). */
  function RunEnd(text: string, j: nat): (r: nat)
    requires j <= |text|
    ensures j <= r <= |text| && (r == |text| || !NumChar(text[r]))
    ensures forall k :: j <= k < r ==> NumChar(text[k])
    decreases |text| - j
  {
    if j < |text| && NumChar(text[j]) then RunEnd(text, j + 1) else j
  }

  /**
   * The group `re.search(label + "=([-,\d\.]+)", text)` captures: the whole run
   * of number characters after the leftmost `label=` that has one.
   */
  function NumText(name: string, text: string): (r: Option<string>)
    ensures r.None? <==> forall j :: 0 <= j ==> !LabelAt(name, text, j)
    ensures r.Some? ==> r.value != [] && forall k :: 0 <= k < |r.value| ==> NumChar(r.value[k])
    ensures r.Some? ==> exists j: nat :: LabelAt(name, text, j) && r.value == text[j + |name| + 1..RunEnd(text, j + |name| + 1)]
  {
    match FindLabel(name, text, 0)
    case None => None
    case Some(i) =>
      var st := i + |name| + 1;
      var run := text[st..RunEnd(text, st)];
      assert forall k :: 0 <= k < |run| ==> run[k] == text[st + k];
      Some(run)
  }

  /** `s.replace(",", "")`. */
  function DropCommas(s: string): (r: string)
    ensures |r| <= |s|
    ensures forall k :: 0 <= k < |r| ==> r[k] != ','
  {
    Filter(s, (c: char) => c != ',')
  }

  /** `_num_from`: the captured run without its commas, as a float; None without a match or when `float` fails. */
  function NumFrom(name: string, text: string, parse: FloatParser): Option<real>
  {
    match NumText(name, text)
    case None => None
    case Some(s) => parse(DropCommas(s))
  }

  /**
   * `_num_from` gives a number exactly when some `label=` is followed by a
   * number character and `float` accepts the leftmost such run with its
   * commas removed; the text handed to `float` keeps every other character of
   * the run, in order.
   */
  lemma NumFromSpec(name: string, text: string, parse: FloatParser)
    ensures NumFrom(name, text, parse).Some? <==>
      (exists j :: LabelAt(name, text, j)) && parse(DropCommas(NumText(name, text).value)).Some?
    ensures NumText(name, text).Some? ==>
      var s := NumText(name, text).value;
      IsSubseq(DropCommas(s), s) && forall c :: c in DropCommas(s) <==> c in s && c != ','
  {
    if NumText(name, text).Some? {
      FilterSpec(NumText(name, text).value, (c: char) => c != ',');
    }
  }

  // ---------------------------------------------------------------------------
  // The per-month interest totals
  // ---------------------------------------------------------------------------

  /** The two aggregates `build_corpus` keeps. */
  datatype Metric = StatementInterest | TransactionInterest

  /** The metric's name, as stored in the aggregate chunk's metadata. */
  function MetricName(m: Metric): string
  {
    match m
    case StatementInterest => "interest_from_statements_total"
    case TransactionInterest => "interest_from_interest_transactions_total"
  }

  /** The month key of a row: its truthy text `ym`. */
  function YmKey(meta: Record): Option<string>
  {
    var v := Get(meta, "ym");
    if v.Str? && v.s != "" then Some(v.s) else None
  }

  function Abs(x: real): real
  {
    if x < 0.0 then -x else x
  }

  /**
   * What one row adds to an aggregate, and under which month: a statement's
   * `interestCharged`; a transaction's `abs(amount)`, when its metadata has a
   * truthy `interest`. Rows without a month or a number add nothing.
   */
  function Contribution(m: Metric, row: Chunk, parse: FloatParser): Option<(string, real)>
  {
    match m
    case StatementInterest =>
      var v := NumFrom("interestCharged", row.text, parse);
      if row.source != "statement" || YmKey(row.meta).None? || v.None? then None
      else Some((YmKey(row.meta).value, v.value))
    case TransactionInterest =>
      var v := NumFrom("amount", row.text, parse);
      if row.source != "transaction" || !Truthy(Get(row.meta, "interest")) || YmKey(row.meta).None? || v.None? then None
      else Some((YmKey(row.meta).value, Abs(v.value)))
  }

  /** A rule saying what a row adds, and under which month. */
  type Rule = Chunk -> Option<(string, real)>

  /** `Contribution` for one metric, as a rule. */
  function RuleOf(m: Metric, parse: FloatParser): Rule
  {
    (row: Chunk) => Contribution(m, row, parse)
  }

  /** The months of an aggregate in first-seen order, and the running totals (a `defaultdict(float)`). */
  datatype Totals = Totals(months: seq<string>, total: map<string, real>)

  /** The totals after adding one contribution. */
  function AddTo(t: Totals, c: Option<(string, real)>): Totals
  {
    match c
    case None => t
    case Some((ym, v)) =>
      if ym in t.total then Totals(t.months, t.total[ym := t.total[ym] + v])
      else Totals(t.months + [ym], t.total[ym := 0.0 + v])
  }

  /** The totals after a run of rows, in row order. */
  function Tally(rule: Rule, rows: seq<Chunk>): Totals
  {
    if rows == [] then Totals([], map[])
    else AddTo(Tally(rule, rows[..|rows| - 1]), rule(rows[|rows| - 1]))
  }

  /** What a row adds to month `ym`. */
  function AddsTo(rule: Rule, row: Chunk, ym: string): real
  {
    var c := rule(row);
    if c.Some? && c.value.0 == ym then c.value.1 else 0.0
  }

  /** Reference definition: the sum of what the rows add to month `ym`. */
  function Sum(rule: Rule, rows: seq<Chunk>, ym: string): real
  {
    if rows == [] then 0.0 else Sum(rule, rows[..|rows| - 1], ym) + AddsTo(rule, rows[|rows| - 1], ym)
  }

  /** The row adds something (possibly zero) to month `ym`. */
  predicate AddsSome(rule: Rule, row: Chunk, ym: string)
  {
    rule(row).Some? && rule(row).value.0 == ym
  }

  /** Some row adds to month `ym`. */
  predicate Contributes(rule: Rule, rows: seq<Chunk>, ym: string)
  {
    exists i :: 0 <= i < |rows| && AddsSome(rule, rows[i], ym)
  }

  /** A sequence without repetitions. */
  predicate Distinct<T(==)>(s: seq<T>)
  {
    forall i, j :: 0 <= i < j < |s| ==> s[i] != s[j]
  }

  /** The rows that add to a month are those before the last that do, and perhaps the last. */
  lemma ContributesSnoc(rule: Rule, rows: seq<Chunk>, ym: string)
    requires rows != []
    ensures Contributes(rule, rows, ym) <==>
      Contributes(rule, rows[..|rows| - 1], ym) || AddsSome(rule, rows[|rows| - 1], ym)
  {
    var init := rows[..|rows| - 1];
    if Contributes(rule, rows, ym) && !AddsSome(rule, rows[|rows| - 1], ym) {
      var i :| 0 <= i < |rows| && AddsSome(rule, rows[i], ym);
      assert init[i] == rows[i];
    }
    if Contributes(rule, init, ym) {
      var i :| 0 <= i < |init| && AddsSome(rule, init[i], ym);
      assert rows[i] == init[i];
    }
  }

  /**
   * The totals hold exactly the months some row adds to, each listed once,
   * and each month's total is the sum of what its rows add.
   */
  lemma {:induction false} TallySums(rule: Rule, rows: seq<Chunk>)
    ensures var t := Tally(rule, rows);
      && Distinct(t.months)
      && (forall ym :: ym in t.months <==> ym in t.total)
      && (forall ym :: ym in t.total <==> Contributes(rule, rows, ym))
      && (forall ym :: ym in t.total ==> t.total[ym] == Sum(rule, rows, ym))
    decreases |rows|
  {
    if rows != [] {
      var init := rows[..|rows| - 1];
      TallySums(rule, init);
      forall ym ensures Contributes(rule, rows, ym) <==> Contributes(rule, init, ym) || AddsSome(rule, rows[|rows| - 1], ym) {
        ContributesSnoc(rule, rows, ym);
      }
      forall ym | !Contributes(rule, init, ym) ensures Sum(rule, init, ym) == 0.0 {
        SumWithout(rule, init, ym);
      }
    }
  }

  /** Every month the totals list has a total. */
  lemma TallyMonthsInTotal(rule: Rule, rows: seq<Chunk>)
    ensures forall ym :: ym in Tally(rule, rows).months ==> ym in Tally(rule, rows).total
  {
    TallySums(rule, rows);
  }

  /** A month no row adds to sums to zero. */
  lemma {:induction false} SumWithout(rule: Rule, rows: seq<Chunk>, ym: string)
    requires !Contributes(rule, rows, ym)
    ensures Sum(rule, rows, ym) == 0.0
    decreases |rows|
  {
    if rows != [] {
      ContributesSnoc(rule, rows, ym);
      SumWithout(rule, rows[..|rows| - 1], ym);
    }
  }

  /** One of the two accumulation loops of `build_corpus`. */
  method TallyRows(m: Metric, rows: seq<Chunk>, parse: FloatParser) returns (t: Totals)
    ensures t == Tally(RuleOf(m, parse), rows)
  {
    t := Totals([], map[]);
    for i := 0 to |rows|
      invariant t == Tally(RuleOf(m, parse), rows[..i])
    {
      TallyStep(RuleOf(m, parse), rows, i);
      var c := Contribution(m, rows[i], parse);
      t := AddTo(t, c);
    }
    assert rows[..|rows|] == rows;
  }

  /** One more row folds its contribution into the totals. */
  lemma TallyStep(rule: Rule, rows: seq<Chunk>, i: nat)
    requires i < |rows|
    ensures Tally(rule, rows[..i + 1]) == AddTo(Tally(rule, rows[..i]), rule(rows[i]))
  {
    assert rows[..i + 1][..i] == rows[..i];
  }

  /** No row whose metadata lacks `interest` adds to the transaction aggregate. */
  lemma {:induction false} NoInterestNoTally(rows: seq<Chunk>, parse: FloatParser)
    requires forall i :: 0 <= i < |rows| ==> "interest" !in rows[i].meta
    ensures Tally(RuleOf(TransactionInterest, parse), rows) == Totals([], map[])
    decreases |rows|
  {
    if rows != [] {
      NoInterestNoTally(rows[..|rows| - 1], parse);
      assert !Truthy(Get(rows[|rows| - 1].meta, "interest"));
    }
  }

  // ---------------------------------------------------------------------------
  // Aggregate chunks
  // ---------------------------------------------------------------------------

  /** `sorted(totals.items())`: the months in ascending order (they are distinct, so the totals never decide). */
  function SortedMonths(months: seq<string>): (r: seq<string>)
    ensures |r| == |months|
    ensures forall i :: 0 <= i < |r| ==> r[i] in months
  {
    Sorting.StringGtTotal();
    Sorting.Pick(months, Sorting.Rank(months, Sorting.StringGt()))
  }

  /** Distinct months come out strictly ascending, each one once. */
  lemma SortedMonthsAscending(months: seq<string>)
    requires Distinct(months)
    ensures forall i, j :: 0 <= i < j < |SortedMonths(months)| ==> Sorting.StrLt(SortedMonths(months)[i], SortedMonths(months)[j])
    ensures forall ym :: ym in SortedMonths(months) <==> ym in months
  {
    Sorting.StringGtTotal();
    var gt := Sorting.StringGt();
    var order := Sorting.Rank(months, gt);
    var r := SortedMonths(months);
    Sorting.RankedStrict(months, gt, order);
    forall i, j | 0 <= i < j < |r| ensures Sorting.StrLt(r[i], r[j]) {
      assert gt(months[order[j]], months[order[i]]);
    }
    forall ym | ym in months ensures ym in r {
      var p :| 0 <= p < |months| && months[p] == ym;
      assert p in order;
      var k :| 0 <= k < |order| && order[k] == p;
      assert r[k] == ym;
    }
  }

  /** The aggregate chunk of one month. */
  function Aggregate(m: Metric, ym: string, val: real, fmt2: real -> string): Chunk
  {
    var what := match m
      case StatementInterest => " (sum of statement interestCharged for ym)"
      case TransactionInterest => " (sum of INTEREST transactions for ym)";
    Chunk("AGGREGATE ym=" + ym + " " + MetricName(m) + "=" + fmt2(val) + what, "aggregate",
          map["ym" := Str(ym), "metric" := Str(MetricName(m))])
  }

  /** How a month and its total become a chunk. */
  type Builder = (string, real) -> Chunk

  /** `Aggregate` for one metric, as a builder. */
  function AggregateOf(m: Metric, fmt2: real -> string): Builder
  {
    (ym: string, val: real) => Aggregate(m, ym, val, fmt2)
  }

  /** The chunks of the given months, in that order. */
  function Aggregates(mk: Builder, months: seq<string>, total: map<string, real>): (r: seq<Chunk>)
    requires forall i :: 0 <= i < |months| ==> months[i] in total
    ensures |r| == |months|
  {
    if months == [] then []
    else Aggregates(mk, months[..|months| - 1], total) + [mk(months[|months| - 1], total[months[|months| - 1]])]
  }

  lemma {:induction false} AggregatesAt(mk: Builder, months: seq<string>, total: map<string, real>, i: nat)
    requires forall k :: 0 <= k < |months| ==> months[k] in total
    requires i < |months|
    ensures Aggregates(mk, months, total)[i] == mk(months[i], total[months[i]])
    decreases |months|
  {
    if i < |months| - 1 {
      AggregatesAt(mk, months[..|months| - 1], total, i);
    }
  }

  /** The aggregate chunks of a tally, in ascending month order. */
  function Emitted(mk: Builder, t: Totals): seq<Chunk>
    requires forall ym :: ym in t.months ==> ym in t.total
  {
    var months := SortedMonths(t.months);
    assert forall i :: 0 <= i < |months| ==> months[i] in t.months;
    Aggregates(mk, months, t.total)
  }

  /** The aggregate chunks `build_corpus` emits for one metric. */
  function AggregateChunks(m: Metric, rows: seq<Chunk>, parse: FloatParser, fmt2: real -> string): seq<Chunk>
  {
    TallyMonthsInTotal(RuleOf(m, parse), rows);
    Emitted(AggregateOf(m, fmt2), Tally(RuleOf(m, parse), rows))
  }

  /**
   * One aggregate chunk per month some row adds to, months strictly
   * ascending, each built from its month and the sum of what that month's
   * rows add.
   */
  lemma EmittedSpec(mk: Builder, rule: Rule, rows: seq<Chunk>)
    ensures var t := Tally(rule, rows);
      (forall ym :: ym in t.months ==> ym in t.total)
      && var a, months := Emitted(mk, t), SortedMonths(t.months);
      && |a| == |months|
      && (forall ym :: ym in months <==> Contributes(rule, rows, ym))
      && (forall i, j :: 0 <= i < j < |months| ==> Sorting.StrLt(months[i], months[j]))
      && (forall i :: 0 <= i < |a| ==> a[i] == mk(months[i], Sum(rule, rows, months[i])))
  {
    var t := Tally(rule, rows);
    TallySums(rule, rows);
    SortedMonthsAscending(t.months);
    EmittedAt(mk, t);
  }

  /** The chunk at each position is built from the month sorted there and its total. */
  lemma EmittedAt(mk: Builder, t: Totals)
    requires forall ym :: ym in t.months ==> ym in t.total
    ensures |Emitted(mk, t)| == |t.months|
    ensures forall i :: 0 <= i < |t.months| ==>
      Emitted(mk, t)[i] == mk(SortedMonths(t.months)[i], t.total[SortedMonths(t.months)[i]])
  {
    var months := SortedMonths(t.months);
    forall i | 0 <= i < |months| ensures Emitted(mk, t)[i] == mk(months[i], t.total[months[i]]) {
      AggregatesAt(mk, months, t.total, i);
    }
  }

  /** Emits the aggregate chunks of one metric after `docs`, in ascending month order. */
  method AppendAggregates(docs: seq<Chunk>, m: Metric, rows: seq<Chunk>, parse: FloatParser, fmt2: real -> string, t: Totals)
    returns (out: seq<Chunk>)
    requires t == Tally(RuleOf(m, parse), rows)
    ensures out == docs + AggregateChunks(m, rows, parse, fmt2)
  {
    TallyMonthsInTotal(RuleOf(m, parse), rows);
    var months := SortedMonths(t.months);
    out := AppendMonths(docs, m, months, t.total, fmt2);
  }

  /** The loop over `sorted(totals.items())`: one aggregate chunk per month, in the given order. */
  method AppendMonths(docs: seq<Chunk>, m: Metric, months: seq<string>, total: map<string, real>, fmt2: real -> string) returns (out: seq<Chunk>)
    requires forall i :: 0 <= i < |months| ==> months[i] in total
    ensures out == docs + Aggregates(AggregateOf(m, fmt2), months, total)
  {
    ghost var mk := AggregateOf(m, fmt2);
    out := docs;
    for j := 0 to |months|
      invariant out == docs + Aggregates(mk, months[..j], total)
    {
      var chunk := Aggregate(m, months[j], total[months[j]], fmt2);
      AggregateStep(docs, out, mk, months, j, total, chunk);
      out := out + [chunk];
    }
    assert months[..|months|] == months;
  }

  /** One step of the loop above keeps its invariant. */
  lemma AggregateStep(docs: seq<Chunk>, out: seq<Chunk>, mk: Builder, months: seq<string>, j: nat, total: map<string, real>, chunk: Chunk)
    requires j < |months| && forall i :: 0 <= i < |months| ==> months[i] in total
    requires out == docs + Aggregates(mk, months[..j], total) && chunk == mk(months[j], total[months[j]])
    ensures out + [chunk] == docs + Aggregates(mk, months[..j + 1], total)
  {
    assert months[..j + 1][..j] == months[..j];
  }

  // ---------------------------------------------------------------------------
  // Agreement and schema chunks, and the whole corpus
  // ---------------------------------------------------------------------------

  /** The agreement chunks: one per window of the agreement's text. */
  function AgreementChunks(windows: seq<string>): (r: seq<Chunk>)
    ensures |r| == |windows|
    ensures forall i :: 0 <= i < |r| ==>
      r[i] == Chunk("AGREEMENT: " + windows[i], "agreement", map["file" := Str("agreement.pdf")])
  {
    if windows == [] then []
    else AgreementChunks(windows[..|windows| - 1]) + [Chunk("AGREEMENT: " + windows[|windows| - 1], "agreement", map["file" := Str("agreement.pdf")])]
  }

  /** The windows `chunk_text(pdf_text, 1000, 200)` cuts, or none without an agreement. */
  function AgreementWindows(agreement: Option<string>): seq<string>
  {
    if agreement.None? then [] else Text.Windows(Text.NormalizeWs(agreement.value), 1000, 200)
  }

  const SchemaText: string :=
    "SCHEMA: STATEMENT{ym, interestCharged, endingBalance, minimumAmountDue, totalAmountDue}; "
    + "TRANSACTION{ym, amount, interestFlag, description, type}; "
    + "PAYMENT{ym, amount, status}; "
    + "PREFER: AGGREGATE.interest_from_statements_total > STATEMENT.interestCharged > TRANSACTION[interestFlag=true]"

  /** The schema cheat sheet, always the last chunk. */
  function Schema(): Chunk
  {
    Chunk(SchemaText, "schema", map["kind" := Str("schema")])
  }

  /** The corpus laid out: rows, statement aggregates, transaction aggregates, agreement, schema. */
  function Assemble(flat: seq<Chunk>, stmt: seq<Chunk>, tx: seq<Chunk>, windows: seq<string>): seq<Chunk>
  {
    flat + stmt + tx + AgreementChunks(windows) + [Schema()]
  }

  /** What `build_corpus` returns for the flattened rows and the agreement text. */
  function Built(flat: seq<Chunk>, agreement: Option<string>, parse: FloatParser, fmt2: real -> string): seq<Chunk>
  {
    Assemble(flat, AggregateChunks(StatementInterest, flat, parse, fmt2),
             AggregateChunks(TransactionInterest, flat, parse, fmt2), AgreementWindows(agreement))
  }

  /** `build_corpus`, after loading and flattening. */
  method BuildCorpus(flat: seq<Chunk>, agreement: Option<string>, parse: FloatParser, fmt2: real -> string) returns (docs: seq<Chunk>)
    ensures docs == Built(flat, agreement, parse, fmt2)
  {
    docs := flat;
    var stmt := TallyRows(StatementInterest, flat, parse);
    var tx := TallyRows(TransactionInterest, flat, parse);
    docs := AppendAggregates(docs, StatementInterest, flat, parse, fmt2, stmt);
    docs := AppendAggregates(docs, TransactionInterest, flat, parse, fmt2, tx);
    ghost var before := docs;
    if agreement.Some? {
      var windows := Text.ChunkText(agreement.value, 1000, 200);
      docs := AppendAgreement(docs, windows);
    } else {
      assert docs == before + AgreementChunks([]);
    }
    docs := docs + [Schema()];
  }

  /** The agreement loop of `build_corpus`. */
  method AppendAgreement(docs: seq<Chunk>, windows: seq<string>) returns (out: seq<Chunk>)
    ensures out == docs + AgreementChunks(windows)
  {
    out := docs;
    for j := 0 to |windows|
      invariant out == docs + AgreementChunks(windows[..j])
    {
      assert windows[..j + 1][..j] == windows[..j];
      out := out + [Chunk("AGREEMENT: " + windows[j], "agreement", map["file" := Str("agreement.pdf")])];
    }
    assert windows[..|windows|] == windows;
  }

  /**
   * The corpus starts with the flattened rows as they are, ends with the
   * schema chunk (so it is never empty), and holds agreement chunks only when
   * there is an agreement.
   */
  lemma AssembleShape(flat: seq<Chunk>, s: seq<Chunk>, t: seq<Chunk>, w: seq<string>)
    ensures var docs := Assemble(flat, s, t, w);
      && |docs| == |flat| + |s| + |t| + |w| + 1
      && docs[..|flat|] == flat
      && docs[|flat|..|flat| + |s|] == s
      && docs[|flat| + |s|..|flat| + |s| + |t|] == t
      && (forall i :: 0 <= i < |w| ==>
            docs[|flat| + |s| + |t| + i] == Chunk("AGREEMENT: " + w[i], "agreement", map["file" := Str("agreement.pdf")]))
      && docs[|docs| - 1] == Schema()
  {
    FiveParts(flat, s, t, AgreementChunks(w), Schema());
  }

  /** Where the parts of `a + b + c + d + [x]` sit. */
  lemma FiveParts<T>(a: seq<T>, b: seq<T>, c: seq<T>, d: seq<T>, x: T)
    ensures var all := a + b + c + d + [x];
      && |all| == |a| + |b| + |c| + |d| + 1
      && all[..|a|] == a
      && all[|a|..|a| + |b|] == b
      && all[|a| + |b|..|a| + |b| + |c|] == c
      && (forall i :: 0 <= i < |d| ==> all[|a| + |b| + |c| + i] == d[i])
      && all[|all| - 1] == x
  {
    var all := a + b + c + d + [x];
    assert all == a + (b + (c + (d + [x])));
    assert all[|a|..] == b + (c + (d + [x]));
    assert all[|a| + |b|..] == c + (d + [x]);
  }

  /**
   * For the rows `flatten_for_rag` produces, the transaction aggregate is
   * empty: their metadata never has an `interest` key.
   */
  lemma FlattenedHasNoTransactionAggregate(data: JsonLoader.Sections, header: JsonLoader.Headers, dumps: JsonLoader.Dumps,
                                           parse: FloatParser, fmt2: real -> string)
    ensures AggregateChunks(TransactionInterest, JsonLoader.Flattened(data, header, dumps), parse, fmt2) == []
  {
    var flat := JsonLoader.Flattened(data, header, dumps);
    JsonLoader.NoInterestMeta(data, header, dumps);
    NoInterestNoTally(flat, parse);
  }
}
