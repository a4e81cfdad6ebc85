/**
 * `core/interest_explain.py`: recognising a "why was I charged interest"
 * question, finding the latest statement that charged interest among the
 * retrieved nodes, and collecting the transactions of that statement's
 * period, newest first, without duplicates, at most twenty.
 *
 * The `Parser` argument stands for `_to_dt`, `fromisoformat` followed by
 * `astimezone(timezone.utc)`, so a moment's fields are its UTC fields. Python
 * reads a text without offset in the machine's local time zone; the model
 * reads it as UTC.
 */
module InterestExplain {
  import opened Common
  import Banking
  import Sorting

  /** A retrieved node: its text and its metadata (`metadata or {}`). */
  datatype Retrieved = Retrieved(text: string, meta: Record)

  /** The phrases that mark a question about why interest was charged. */
  const WhyKeys: seq<string> := [
    "why was my interest", "why was i charged interest",
    "what caused the interest", "why interest",
    "transactions responsible for interest"]

  /** Whether `s` contains one of `keys`: `any(k in s for k in keys)`. */
  function ContainsAny(s: string, keys: seq<string>): (r: bool)
    ensures r <==> exists i :: 0 <= i < |keys| && Contains(s, keys[i])
  {
    if keys == [] then false
    else if Contains(s, keys[0]) then true
    else
      var r := ContainsAny(s, keys[1..]);
      assert forall i :: 1 <= i < |keys| ==> keys[i] == keys[1..][i - 1];
      r
  }

  /** `is_why_interest_intent`: the lower-cased question contains one of the key phrases. */
  function IsWhyInterestIntent(q: string): (r: bool)
    ensures r <==> exists i :: 0 <= i < |WhyKeys| && Contains(Lower(q), WhyKeys[i])
  {
    ContainsAny(Lower(q), WhyKeys)
  }

  /** The question's case does not matter. */
  lemma WhyIntentIgnoresCase(q: string)
    ensures IsWhyInterestIntent(Lower(q)) == IsWhyInterestIntent(q)
    ensures IsWhyInterestIntent(Upper(q)) == IsWhyInterestIntent(q)
  {
    LowerFolds(q);
  }

  // ---------------------------------------------------------------------------
  // _pick_last_interest_statement
  // ---------------------------------------------------------------------------

  predicate IsStatement(md: Record)
  {
    Get(md, "kind") == Str("statement")
  }

  /** `float(md.get("interestCharged") or 0.0)`, or 0.0 when `float` raises. */
  function InterestCharged(pf: FloatParser, md: Record): real
  {
    match ToFloat(pf, Or(Get(md, "interestCharged"), Real(0.0)))
    case Some(x) => x
    case None => 0.0
  }

  /** A statement that charged interest. */
  predicate Qualifies(pf: FloatParser, md: Record)
  {
    IsStatement(md) && InterestCharged(pf, md) > 0.0
  }

  /** A statement's date: the closing date, else `dt_iso`, parsed. */
  function StatementDate(parse: Parser, md: Record): Option<Timestamp>
  {
    Banking.ParseDt(parse, Or(Get(md, "closingDateTime"), Get(md, "dt_iso")))
  }

  /** A qualifying statement whose date parses: the only kind that can be picked. */
  predicate Dated(parse: Parser, pf: FloatParser, md: Record)
  {
    Qualifies(pf, md) && StatementDate(parse, md).Some?
  }

  /** The statement picked so far and its date (`best`, `best_dt`). */
  datatype Best = Best(meta: Record, dt: Timestamp)

  /** The loop's `best` after the given nodes: a later date replaces it, an equal one does not. */
  function LastStatement(parse: Parser, pf: FloatParser, nodes: seq<Retrieved>): (r: Option<Best>)
    decreases |nodes|
  {
    if nodes == [] then None
    else
      var prev := LastStatement(parse, pf, nodes[..|nodes| - 1]);
      var md := nodes[|nodes| - 1].meta;
      if Dated(parse, pf, md) && (prev.None? || Lt(prev.value.dt, StatementDate(parse, md).value))
      then Some(Best(md, StatementDate(parse, md).value))
      else prev
  }

  /**
   * Node `p` is the one picked as `b`: it qualifies with date `b.dt`, no
   * qualifying node is later, and every qualifying node before it is earlier.
   */
  ghost predicate Chosen(parse: Parser, pf: FloatParser, nodes: seq<Retrieved>, p: nat, b: Best)
    requires p < |nodes|
  {
    && nodes[p].meta == b.meta
    && Dated(parse, pf, b.meta) && StatementDate(parse, b.meta).value == b.dt
    && (forall q :: 0 <= q < |nodes| && Dated(parse, pf, nodes[q].meta) ==> Le(StatementDate(parse, nodes[q].meta).value, b.dt))
    && (forall q :: 0 <= q < p && Dated(parse, pf, nodes[q].meta) ==> Lt(StatementDate(parse, nodes[q].meta).value, b.dt))
  }

  /** Nothing is picked exactly when no node is a dated statement that charged interest. */
  lemma {:induction false} LastStatementNone(parse: Parser, pf: FloatParser, nodes: seq<Retrieved>)
    ensures LastStatement(parse, pf, nodes).None? <==> forall q :: 0 <= q < |nodes| ==> !Dated(parse, pf, nodes[q].meta)
    decreases |nodes|
  {
    if nodes != [] {
      var init := nodes[..|nodes| - 1];
      LastStatementNone(parse, pf, init);
      assert forall q :: 0 <= q < |init| ==> init[q] == nodes[q];
    }
  }

  /** What is picked is the first of the latest qualifying statements. */
  lemma {:induction false} LastStatementChosen(parse: Parser, pf: FloatParser, nodes: seq<Retrieved>) returns (p: nat)
    requires LastStatement(parse, pf, nodes).Some?
    ensures p < |nodes| && Chosen(parse, pf, nodes, p, LastStatement(parse, pf, nodes).value)
    decreases |nodes|
  {
    var n := |nodes|;
    var init := nodes[..n - 1];
    var prev := LastStatement(parse, pf, init);
    var md := nodes[n - 1].meta;
    if Dated(parse, pf, md) && (prev.None? || Lt(prev.value.dt, StatementDate(parse, md).value)) {
      p := n - 1;
      if prev.None? {
        ChosenFirst(parse, pf, nodes);
      } else {
        var p0 := LastStatementChosen(parse, pf, init);
        ChosenLater(parse, pf, nodes, p0, prev.value);
      }
    } else {
      p := LastStatementChosen(parse, pf, init);
      ChosenKept(parse, pf, nodes, p, prev.value);
    }
  }

  /** The first dated statement is picked when nothing before it qualifies. */
  lemma ChosenFirst(parse: Parser, pf: FloatParser, nodes: seq<Retrieved>)
    requires nodes != [] && Dated(parse, pf, nodes[|nodes| - 1].meta)
    requires LastStatement(parse, pf, nodes[..|nodes| - 1]).None?
    ensures Chosen(parse, pf, nodes, |nodes| - 1,
                   Best(nodes[|nodes| - 1].meta, StatementDate(parse, nodes[|nodes| - 1].meta).value))
  {
    LastStatementNone(parse, pf, nodes[..|nodes| - 1]);
    var d := StatementDate(parse, nodes[|nodes| - 1].meta).value;
    assert forall q :: 0 <= q < |nodes| - 1 ==> nodes[..|nodes| - 1][q] == nodes[q];
    LeTotal(d, d);
  }

  /** A statement dated after the current pick replaces it. */
  lemma ChosenLater(parse: Parser, pf: FloatParser, nodes: seq<Retrieved>, p0: nat, b: Best)
    requires nodes != [] && p0 < |nodes| - 1 && Chosen(parse, pf, nodes[..|nodes| - 1], p0, b)
    requires Dated(parse, pf, nodes[|nodes| - 1].meta) && Lt(b.dt, StatementDate(parse, nodes[|nodes| - 1].meta).value)
    ensures Chosen(parse, pf, nodes, |nodes| - 1,
                   Best(nodes[|nodes| - 1].meta, StatementDate(parse, nodes[|nodes| - 1].meta).value))
  {
    var n := |nodes|;
    var init := nodes[..n - 1];
    var d := StatementDate(parse, nodes[n - 1].meta).value;
    forall q | 0 <= q < n && Dated(parse, pf, nodes[q].meta)
      ensures Lt(StatementDate(parse, nodes[q].meta).value, d) || q == n - 1
    {
      if q < n - 1 {
        var e := StatementDate(parse, nodes[q].meta).value;
        assert init[q] == nodes[q];
        assert Le(e, b.dt);
        LeTransitive(e, b.dt, d);
        LeTotal(e, d);
        LeTotal(b.dt, d);
      }
    }
    LeTotal(d, d);
  }

  /** A statement not dated after the current pick leaves it in place. */
  lemma ChosenKept(parse: Parser, pf: FloatParser, nodes: seq<Retrieved>, p0: nat, b: Best)
    requires nodes != [] && p0 < |nodes| - 1 && Chosen(parse, pf, nodes[..|nodes| - 1], p0, b)
    requires !(Dated(parse, pf, nodes[|nodes| - 1].meta) && Lt(b.dt, StatementDate(parse, nodes[|nodes| - 1].meta).value))
    ensures Chosen(parse, pf, nodes, p0, b)
  {
    var n := |nodes|;
    assert forall q :: 0 <= q < n - 1 ==> nodes[..n - 1][q] == nodes[q];
    if Dated(parse, pf, nodes[n - 1].meta) {
      LeTotal(StatementDate(parse, nodes[n - 1].meta).value, b.dt);
    }
  }

  /** The metadata of what was picked, if anything. */
  function MetaOf(b: Option<Best>): Option<Record>
  {
    if b.Some? then Some(b.value.meta) else None
  }

  /** The date of what was picked, if anything. */
  function DtOf(b: Option<Best>): Option<Timestamp>
  {
    if b.Some? then Some(b.value.dt) else None
  }

  /**
   * `_pick_last_interest_statement`: keeps the first statement with a
   * positive interest charge and the latest parsed date.
   */
  method PickLastInterestStatement(nodes: seq<Retrieved>, parse: Parser, pf: FloatParser) returns (best: Option<Record>)
    ensures best == MetaOf(LastStatement(parse, pf, nodes))
  {
    best := None;
    var bestDt: Option<Timestamp> := None;
    for i := 0 to |nodes|
      invariant best == MetaOf(LastStatement(parse, pf, nodes[..i]))
      invariant bestDt == DtOf(LastStatement(parse, pf, nodes[..i]))
    {
      assert nodes[..i + 1][..i] == nodes[..i];
      var md := nodes[i].meta;
      if IsStatement(md) {
        var amt := InterestCharged(pf, md);
        if amt > 0.0 {
          var dt := StatementDate(parse, md);
          if dt.Some? && (bestDt.None? || Lt(bestDt.value, dt.value)) {
            best, bestDt := Some(md), dt;
          }
        }
      }
    }
    assert nodes[..|nodes|] == nodes;
  }

  // ---------------------------------------------------------------------------
  // _within and _txns_in_window
  // ---------------------------------------------------------------------------

  /** `_within`: all three dates present and `start <= dt <= end`. */
  predicate Within(dt: Option<Timestamp>, start: Option<Timestamp>, end: Option<Timestamp>)
  {
    dt.Some? && start.Some? && end.Some? && Le(start.value, dt.value) && Le(dt.value, end.value)
  }

  predicate IsTransaction(md: Record)
  {
    Get(md, "kind") == Str("transaction")
  }

  /** The test `_txns_in_window` applies to each node. */
  function InWindow(parse: Parser, start: Option<Timestamp>, end: Option<Timestamp>): Retrieved -> bool
  {
    (n: Retrieved) => IsTransaction(n.meta) && Within(Banking.ParseDt(parse, Get(n.meta, "dt_iso")), start, end)
  }

  /**
   * `_txns_in_window`: the transaction nodes dated inside the window, in
   * input order.
   */
  method TxnsInWindow(nodes: seq<Retrieved>, startIso: Value, endIso: Value, parse: Parser) returns (out: seq<Retrieved>)
    ensures out == Filter(nodes, InWindow(parse, Banking.ParseDt(parse, startIso), Banking.ParseDt(parse, endIso)))
  {
    var sdt, edt := Banking.ParseDt(parse, startIso), Banking.ParseDt(parse, endIso);
    out := [];
    for i := 0 to |nodes|
      invariant out == Filter(nodes[..i], InWindow(parse, sdt, edt))
    {
      FilterSnoc(nodes[..i], nodes[i], InWindow(parse, sdt, edt));
      assert nodes[..i + 1] == nodes[..i] + [nodes[i]];
      var md := nodes[i].meta;
      if IsTransaction(md) {
        var dt := Banking.ParseDt(parse, Get(md, "dt_iso"));
        if Within(dt, sdt, edt) {
          out := out + [nodes[i]];
        }
      }
    }
    assert nodes[..|nodes|] == nodes;
  }

  /** The window keeps, in order, exactly the transactions dated from start to end inclusive. */
  lemma TxnsInWindowSpec(nodes: seq<Retrieved>, start: Option<Timestamp>, end: Option<Timestamp>, parse: Parser)
    ensures IsSubseq(Filter(nodes, InWindow(parse, start, end)), nodes)
    ensures forall n :: n in Filter(nodes, InWindow(parse, start, end)) <==>
      n in nodes && IsTransaction(n.meta) && start.Some? && end.Some?
      && Banking.ParseDt(parse, Get(n.meta, "dt_iso")).Some?
      && Le(start.value, Banking.ParseDt(parse, Get(n.meta, "dt_iso")).value)
      && Le(Banking.ParseDt(parse, Get(n.meta, "dt_iso")).value, end.value)
  {
    FilterSpec(nodes, InWindow(parse, start, end));
  }

  // ---------------------------------------------------------------------------
  // build_interest_context: sort, dedupe, cap
  // ---------------------------------------------------------------------------

  /** At most this many transactions are returned. */
  const Cap: nat := 20

  /** The sort key: `dt_iso`, or the empty string when it is missing or empty. */
  function DateKey(n: Retrieved): string
  {
    var v := Get(n.meta, "dt_iso");
    if v.Str? then v.s else ""
  }

  /** `sorted(txns, key=dt_iso or "", reverse=True)`. */
  function ByDateDesc(txns: seq<Retrieved>): (r: seq<Retrieved>)
    ensures |r| == |txns|
  {
    Sorting.StringLtTotal();
    Sorting.SortDesc(txns, MapSeq(DateKey, txns), Sorting.StringLt())
  }

  /** No node comes before one with a later date key. */
  ghost predicate Descending(xs: seq<Retrieved>)
  {
    forall i, j :: 0 <= i < j < |xs| ==> !Sorting.StrLt(DateKey(xs[i]), DateKey(xs[j]))
  }

  /** The sort rearranges the transactions, newest `dt_iso` first. */
  lemma ByDateDescSpec(txns: seq<Retrieved>)
    ensures multiset(ByDateDesc(txns)) == multiset(txns)
    ensures Descending(ByDateDesc(txns))
  {
    var keys := MapSeq(DateKey, txns);
    Sorting.StringLtTotal();
    Sorting.SortDescPermutation(txns, keys, Sorting.StringLt());
    var order := Sorting.Rank(keys, Sorting.StringLt());
    var r := ByDateDesc(txns);
    forall i, j | 0 <= i < j < |r| ensures !Sorting.StrLt(DateKey(r[i]), DateKey(r[j])) {
      var ki, kj := keys[order[i]], keys[order[j]];
      assert Sorting.Above(keys, Sorting.StringLt(), order[i], order[j]);
      assert DateKey(r[i]) == ki && DateKey(r[j]) == kj;
      if Sorting.StrLt(ki, kj) && Sorting.StrLt(kj, ki) {
        Sorting.StrLtTransitive(ki, kj, ki);
        Sorting.StrLtIrreflexive(ki);
      }
    }
  }

  /** The de-duplication key: `transactionId`, else merchant, amount and date together. */
  datatype DedupKey = ById(id: Value) | ByFields(merchant: Value, amount: Value, dt: Value)

  function KeyOf(n: Retrieved): DedupKey
  {
    if Truthy(Get(n.meta, "transactionId")) then ById(Get(n.meta, "transactionId"))
    else ByFields(Get(n.meta, "merchantName"), Get(n.meta, "amount"), Get(n.meta, "dt_iso"))
  }

  /** The keys of some nodes: the loop's `seen` set. */
  function KeySet(xs: seq<Retrieved>): set<DedupKey>
  {
    set x | x in xs :: KeyOf(x)
  }

  /** The first node of each key, in order: the de-duplication without the cap. */
  function Dedup(xs: seq<Retrieved>): (r: seq<Retrieved>)
    decreases |xs|
  {
    if xs == [] then []
    else
      var d := Dedup(xs[..|xs| - 1]);
      if KeyOf(xs[|xs| - 1]) in KeySet(d) then d else d + [xs[|xs| - 1]]
  }

  /** Keys are never repeated, nothing new appears, and every key present in the input survives. */
  lemma {:induction false} DedupSpec(xs: seq<Retrieved>)
    ensures forall i, j :: 0 <= i < j < |Dedup(xs)| ==> KeyOf(Dedup(xs)[i]) != KeyOf(Dedup(xs)[j])
    ensures forall x :: x in Dedup(xs) ==> x in xs
    ensures KeySet(Dedup(xs)) == KeySet(xs)
    decreases |xs|
  {
    if xs != [] {
      var init := xs[..|xs| - 1];
      var x := xs[|xs| - 1];
      DedupSpec(init);
      assert xs == init + [x];
      DedupSnoc(init, x);
      KeySetSnoc(init, x);
      if KeyOf(x) !in KeySet(Dedup(init)) {
        DistinctSnoc(Dedup(init), x);
      }
    }
  }

  /** Appending a node with an unseen key keeps the keys distinct and adds that key. */
  lemma DistinctSnoc(d: seq<Retrieved>, x: Retrieved)
    requires forall i, j :: 0 <= i < j < |d| ==> KeyOf(d[i]) != KeyOf(d[j])
    requires KeyOf(x) !in KeySet(d)
    ensures forall i, j :: 0 <= i < j < |d + [x]| ==> KeyOf((d + [x])[i]) != KeyOf((d + [x])[j])
    ensures KeySet(d + [x]) == KeySet(d) + {KeyOf(x)}
  {
    var r := d + [x];
    forall i, j | 0 <= i < j < |r| ensures KeyOf(r[i]) != KeyOf(r[j]) {
      if j == |d| {
        assert r[i] in d;
      }
    }
    KeySetSnoc(d, x);
  }

  /** More input only appends to the de-duplication: what the loop has kept is never revised. */
  lemma {:induction false} DedupPrefix(xs: seq<Retrieved>, ys: seq<Retrieved>)
    ensures |Dedup(xs)| <= |Dedup(xs + ys)| && Dedup(xs + ys)[..|Dedup(xs)|] == Dedup(xs)
    decreases |ys|
  {
    if ys == [] {
      assert xs + ys == xs;
    } else {
      var ys' := ys[..|ys| - 1];
      DedupPrefix(xs, ys');
      assert (xs + ys)[..|xs + ys| - 1] == xs + ys';
    }
  }

  /** De-duplicating a list sorted newest first keeps it sorted. */
  lemma {:induction false} DedupDescending(xs: seq<Retrieved>)
    requires Descending(xs)
    ensures Descending(Dedup(xs))
    decreases |xs|
  {
    if xs != [] {
      var init := xs[..|xs| - 1];
      var x := xs[|xs| - 1];
      assert Descending(init);
      DedupDescending(init);
      DedupSpec(init);
      var d := Dedup(init);
      if KeyOf(x) !in KeySet(d) {
        var r := d + [x];
        forall i, j | 0 <= i < j < |r| ensures !Sorting.StrLt(DateKey(r[i]), DateKey(r[j])) {
          if j == |d| {
            assert r[i] in init;
            var k :| 0 <= k < |init| && init[k] == r[i];
            assert xs[k] == r[i];
          }
        }
      }
    }
  }

  /** One more node: kept unless its key was seen. */
  lemma DedupSnoc(xs: seq<Retrieved>, x: Retrieved)
    ensures Dedup(xs + [x]) == if KeyOf(x) in KeySet(Dedup(xs)) then Dedup(xs) else Dedup(xs) + [x]
  {
    assert (xs + [x])[..|xs|] == xs;
  }

  lemma KeySetSnoc(xs: seq<Retrieved>, x: Retrieved)
    ensures KeySet(xs + [x]) == KeySet(xs) + {KeyOf(x)}
  {
    forall y | y in xs + [x] ensures y in xs || y == x {
    }
  }

  /** One turn of the de-duplication loop at position `i`, with `out` and `seen` as the loop holds them. */
  lemma DedupStep(xs: seq<Retrieved>, i: nat, out: seq<Retrieved>, seen: set<DedupKey>)
    requires i < |xs| && out == Dedup(xs[..i]) && seen == KeySet(out)
    ensures Dedup(xs[..i + 1]) == if KeyOf(xs[i]) in seen then out else out + [xs[i]]
    ensures KeySet(out + [xs[i]]) == seen + {KeyOf(xs[i])}
  {
    assert xs[..i + 1] == xs[..i] + [xs[i]];
    DedupSnoc(xs[..i], xs[i]);
    KeySetSnoc(out, xs[i]);
  }

  /** Once `Cap` nodes are kept from the first `m`, the rest cannot change the first `Cap`. */
  /** The loop variables after the turn at position `i` are the de-duplication of one more node. */
  lemma DedupAdvance(xs: seq<Retrieved>, i: nat, out0: seq<Retrieved>, seen0: set<DedupKey>, out: seq<Retrieved>, seen: set<DedupKey>)
    requires i < |xs| && out0 == Dedup(xs[..i]) && seen0 == KeySet(out0)
    requires KeyOf(xs[i]) in seen0 ==> out == out0 && seen == seen0
    requires KeyOf(xs[i]) !in seen0 ==> out == out0 + [xs[i]] && seen == seen0 + {KeyOf(xs[i])}
    ensures out == Dedup(xs[..i + 1]) && seen == KeySet(out)
  {
    DedupStep(xs, i, out0, seen0);
  }

  lemma CapReached(xs: seq<Retrieved>, m: nat)
    requires m <= |xs| && |Dedup(xs[..m])| == Cap
    ensures Prefix(Dedup(xs), Cap) == Dedup(xs[..m])
  {
    DedupPrefix(xs[..m], xs[m..]);
    assert xs[..m] + xs[m..] == xs;
  }

  /**
   * The de-duplication loop: skips nodes whose key was seen, and stops once
   * `Cap` nodes are kept.
   */
  method DedupCap(ordered: seq<Retrieved>) returns (out: seq<Retrieved>)
    ensures out == Prefix(Dedup(ordered), Cap)
  {
    var seen: set<DedupKey> := {};
    out := [];
    var i := 0;
    while i < |ordered|
      invariant 0 <= i <= |ordered|
      invariant out == Dedup(ordered[..i]) && seen == KeySet(out) && |out| < Cap
    {
      ghost var out0, seen0 := out, seen;
      var n := ordered[i];
      var key := KeyOf(n);
      if key !in seen {
        seen := seen + {key};
        out := out + [n];
        DedupAdvance(ordered, i, out0, seen0, out, seen);
        if |out| >= Cap {
          CapReached(ordered, i + 1);
          return;
        }
      } else {
        DedupAdvance(ordered, i, out0, seen0, out, seen);
      }
      i := i + 1;
    }
    assert ordered[..|ordered|] == ordered;
  }

  // ---------------------------------------------------------------------------
  // build_interest_context
  // ---------------------------------------------------------------------------

  /** The statement picked and the transactions returned with it. */
  datatype Context = Context(stmt: Option<Record>, txns: seq<Retrieved>)

  /** The statement's opening date value. */
  function OpenIso(md: Record): Value
  {
    Get(md, "openingDateTime")
  }

  /** The statement's closing date value: `closingDateTime`, else `dt_iso`. */
  function CloseIso(md: Record): Value
  {
    Or(Get(md, "closingDateTime"), Get(md, "dt_iso"))
  }

  /** The transactions returned for a statement whose dates are present. */
  function StatementTxns(wide: seq<Retrieved>, md: Record, parse: Parser): seq<Retrieved>
  {
    var window := InWindow(parse, Banking.ParseDt(parse, OpenIso(md)), Banking.ParseDt(parse, CloseIso(md)));
    Prefix(Dedup(ByDateDesc(Filter(wide, window))), Cap)
  }

  /** What `build_interest_context` returns for the retrieved nodes `wide`. */
  function InterestContext(wide: seq<Retrieved>, parse: Parser, pf: FloatParser): Context
  {
    match MetaOf(LastStatement(parse, pf, wide))
    case None => Context(None, [])
    case Some(md) =>
      if !(Truthy(OpenIso(md)) && Truthy(CloseIso(md))) then Context(Some(md), [])
      else Context(Some(md), StatementTxns(wide, md, parse))
  }

  /**
   * `build_interest_context`: the vector hits, followed by the BM25 hits
   * unless that search raised (`None`), are the nodes searched.
   */
  method BuildInterestContext(vecHits: seq<Retrieved>, bm25Hits: Option<seq<Retrieved>>, parse: Parser, pf: FloatParser)
    returns (c: Context)
    ensures c == InterestContext(vecHits + (if bm25Hits.Some? then bm25Hits.value else []), parse, pf)
  {
    var wide := vecHits;
    if bm25Hits.Some? {
      wide := wide + bm25Hits.value;
    } else {
      assert wide == vecHits + [];
    }
    var stmtMd := PickLastInterestStatement(wide, parse, pf);
    if stmtMd.None? {
      return Context(None, []);
    }
    var md := stmtMd.value;
    var openIso, closeIso := OpenIso(md), CloseIso(md);
    if !(Truthy(openIso) && Truthy(closeIso)) {
      return Context(Some(md), []);
    }
    var txns := TxnsInWindow(wide, openIso, closeIso, parse);
    var ordered := ByDateDesc(txns);
    var out := DedupCap(ordered);
    c := Context(Some(md), out);
  }

  /**
   * No statement is returned exactly when no retrieved node is a dated
   * statement that charged interest; without one, or without both of its
   * dates, no transactions are returned.
   */
  lemma ContextStatement(wide: seq<Retrieved>, parse: Parser, pf: FloatParser)
    ensures InterestContext(wide, parse, pf).stmt.None? <==> forall q :: 0 <= q < |wide| ==> !Dated(parse, pf, wide[q].meta)
    ensures InterestContext(wide, parse, pf).stmt.None? ==> InterestContext(wide, parse, pf).txns == []
    ensures forall md :: (InterestContext(wide, parse, pf).stmt == Some(md) && !(Truthy(OpenIso(md)) && Truthy(CloseIso(md))))
                         ==> InterestContext(wide, parse, pf).txns == []
  {
    LastStatementNone(parse, pf, wide);
  }

  /**
   * The statement nodes of the index builder carry no `openingDateTime`
   * (`Indexes.StatementMeta` has no such entry). Searched among such nodes,
   * the period never has its start and no transactions are returned.
   */
  lemma NoOpeningNoTxns(wide: seq<Retrieved>, parse: Parser, pf: FloatParser)
    requires forall q :: 0 <= q < |wide| ==> "openingDateTime" !in wide[q].meta
    ensures InterestContext(wide, parse, pf).txns == []
  {
    if LastStatement(parse, pf, wide).Some? {
      var p := LastStatementChosen(parse, pf, wide);
      assert OpenIso(wide[p].meta) == Null;
    }
  }

  /** The transactions returned are at most `Cap` retrieved transaction nodes of the statement's period. */
  lemma StatementTxnsFromWindow(wide: seq<Retrieved>, md: Record, parse: Parser)
    ensures |StatementTxns(wide, md, parse)| <= Cap
    ensures forall n :: n in StatementTxns(wide, md, parse) ==>
      n in wide && InWindow(parse, Banking.ParseDt(parse, OpenIso(md)), Banking.ParseDt(parse, CloseIso(md)))(n)
  {
    var window := InWindow(parse, Banking.ParseDt(parse, OpenIso(md)), Banking.ParseDt(parse, CloseIso(md)));
    var inWin := Filter(wide, window);
    var sorted := ByDateDesc(inWin);
    FilterSpec(wide, window);
    ByDateDescSpec(inWin);
    DedupSpec(sorted);
    var d := Dedup(sorted);
    var r := StatementTxns(wide, md, parse);
    forall n | n in r ensures n in wide && window(n) {
      assert n in d;
      assert n in multiset(sorted);
    }
  }

  /** The transactions returned are newest first, and no key appears twice. */
  lemma StatementTxnsOrdered(wide: seq<Retrieved>, md: Record, parse: Parser)
    ensures Descending(StatementTxns(wide, md, parse))
    ensures forall i, j :: 0 <= i < j < |StatementTxns(wide, md, parse)| ==>
      KeyOf(StatementTxns(wide, md, parse)[i]) != KeyOf(StatementTxns(wide, md, parse)[j])
  {
    var window := InWindow(parse, Banking.ParseDt(parse, OpenIso(md)), Banking.ParseDt(parse, CloseIso(md)));
    var sorted := ByDateDesc(Filter(wide, window));
    ByDateDescSpec(Filter(wide, window));
    DedupSpec(sorted);
    DedupDescending(sorted);
    PrefixOrdered(Dedup(sorted), Cap);
  }

  /** Cutting a newest-first list with distinct keys keeps it so. */
  lemma PrefixOrdered(d: seq<Retrieved>, k: int)
    requires Descending(d)
    requires forall i, j :: 0 <= i < j < |d| ==> KeyOf(d[i]) != KeyOf(d[j])
    ensures Descending(Prefix(d, k))
    ensures forall i, j :: 0 <= i < j < |Prefix(d, k)| ==> KeyOf(Prefix(d, k)[i]) != KeyOf(Prefix(d, k)[j])
  {
    var r := Prefix(d, k);
    assert r == d[..|r|];
  }

  /** When fewer than `Cap` are returned, every key of the period's transactions is represented. */
  lemma StatementTxnsComplete(wide: seq<Retrieved>, md: Record, parse: Parser)
    requires |StatementTxns(wide, md, parse)| < Cap
    ensures forall n :: n in wide && InWindow(parse, Banking.ParseDt(parse, OpenIso(md)), Banking.ParseDt(parse, CloseIso(md)))(n) ==>
      KeyOf(n) in KeySet(StatementTxns(wide, md, parse))
  {
    var window := InWindow(parse, Banking.ParseDt(parse, OpenIso(md)), Banking.ParseDt(parse, CloseIso(md)));
    var inWin := Filter(wide, window);
    var sorted := ByDateDesc(inWin);
    FilterSpec(wide, window);
    ByDateDescSpec(inWin);
    DedupSpec(sorted);
    assert StatementTxns(wide, md, parse) == Dedup(sorted);
    forall n | n in wide && window(n) ensures KeyOf(n) in KeySet(Dedup(sorted)) {
      assert n in multiset(inWin);
      assert n in sorted;
    }
  }
}
