/**
 * `core/indexes.py`: the metadata nodes `build_indexes` derives from the
 * banking records before it hands them to the vector and BM25 indexes.
 *
 * Loading the records and the agreement text, the ISO parser, `str` and
 * `json.dumps` are parameters; the indexes themselves are not modelled.
 *
 * The `Parser` argument stands for `_to_utc`, `fromisoformat` followed by
 * `astimezone(timezone.utc)`: a moment's fields are its UTC fields, so
 * "2024-03-01T00:30:00+02:00" is in month 2024-02 here (unlike `Banking`).
 * Python reads a text without offset in the machine's local time zone; the
 * model reads it as UTC.
 */
module Indexes {
  import opened Common
  import Utils
  import Banking
  import JsonLoader

  /** Transaction types that are never spend, whatever their direction. */
  const ExcludeTypes: set<string> := {"payment", "refund", "credit", "interest", "fee reversal"}

  /** The records `load_banking_data` returns, one list per kind. */
  datatype Bundle = Bundle(accounts: seq<Record>, statements: seq<Record>, transactions: seq<Record>, payments: seq<Record>)

  /**
   * A node's metadata dictionary, one shape per kind (its `kind` entry);
   * entries read with `.get` are Python values, the derived ones are typed.
   */
  datatype NodeMeta =
    | AccountMeta(accountId: Value, accountStatus: Value, currentBalance: Value, availableCredit: Value,
                  openedDateTime: Value, closedDateTime: Value)
    | StatementMeta(dtIso: Value, ym: Value, statementId: Value, dueDate: Value, closingDateTime: Value,
                    interestCharged: Value, minimumPaymentDue: Value, newBalance: Value)
    | TransactionMeta(dtIso: Value, ym: Value, merchantName: Value, amount: Value, txType: string,
                      debit: bool, spendCandidate: bool, transactionId: Value)
    | PaymentMeta(dtIso: Value, ym: Value, paymentId: Value, amount: Value, status: Value)
    | AgreementMeta
  {
    /** The `kind` entry. */
    function Kind(): string
    {
      match this
      case AccountMeta(_, _, _, _, _, _) => "account"
      case StatementMeta(_, _, _, _, _, _, _, _) => "statement"
      case TransactionMeta(_, _, _, _, _, _, _, _) => "transaction"
      case PaymentMeta(_, _, _, _, _) => "payment"
      case AgreementMeta => "agreement"
    }

    /** `meta.get("dt_iso")`: kinds without a date read as None. */
    function DtIso(): Value
    {
      if StatementMeta? || TransactionMeta? || PaymentMeta? then dtIso else Null
    }
  }

  /** A `TextNode`: its text and its metadata. */
  datatype Node = Node(text: string, meta: NodeMeta)

  /** `_first(*vals)` returns the first truthy value, and None when there is none. */
  lemma {:induction false} FirstPicks(vs: seq<Value>)
    ensures forall i :: 0 <= i < |vs| && Truthy(vs[i]) && (forall j :: 0 <= j < i ==> !Truthy(vs[j])) ==> First(vs) == vs[i]
    ensures (forall i :: 0 <= i < |vs| ==> !Truthy(vs[i])) ==> First(vs) == Null
  {
    if vs != [] {
      FirstPicks(vs[1..]);
      forall i | 0 <= i < |vs| && Truthy(vs[i]) && (forall j :: 0 <= j < i ==> !Truthy(vs[j]))
        ensures First(vs) == vs[i]
      {
        if i > 0 {
          assert !Truthy(vs[0]);
          assert vs[1..][i - 1] == vs[i];
          forall j | 0 <= j < i - 1 ensures !Truthy(vs[1..][j]) {
            assert vs[1..][j] == vs[j + 1];
          }
        }
      }
      if forall i :: 0 <= i < |vs| ==> !Truthy(vs[i]) {
        assert !Truthy(vs[0]);
        forall j | 0 <= j < |vs| - 1 ensures !Truthy(vs[1..][j]) {
          assert vs[1..][j] == vs[j + 1];
        }
      }
    }
  }

  /** `_first(a, b)`. */
  lemma First2(a: Value, b: Value)
    ensures First([a, b]) == if Truthy(a) then a else if Truthy(b) then b else Null
  {
    assert [b][1..] == [];
    assert First([b]) == if Truthy(b) then b else Null;
    assert [a, b][1..] == [b];
  }

  /** `_first(a, b, c)`. */
  lemma First3(a: Value, b: Value, c: Value)
    ensures First([a, b, c]) == if Truthy(a) then a else if Truthy(b) then b else if Truthy(c) then c else Null
  {
    assert [a, b, c][1..] == [b, c];
    First2(b, c);
  }

  /**
   * `_ym(dt_iso)`: `_to_utc` (which reads text as `_parse_dt` does: a falsy
   * value, a value that is not text or text that does not parse gives None)
   * and then the `YYYY-MM` bucket, or None.
   */
  function Ym(parse: Parser, dtIso: Value): (r: Value)
    ensures r == Null <==> Banking.ParseDt(parse, dtIso).None?
    ensures r != Null ==> r.Str? && Some(r.s) == Utils.YmFromDt(Banking.ParseDt(parse, dtIso))
  {
    var ym := Utils.YmFromDt(Banking.ParseDt(parse, dtIso));
    if ym.Some? then Str(ym.value) else Null
  }

  // ---------------------------------------------------------------------------
  // Per-record metadata
  // ---------------------------------------------------------------------------

  function MetaOfAccount(r: Record): NodeMeta
  {
    AccountMeta(Get(r, "accountId"), Get(r, "accountStatus"), Get(r, "currentBalance"), Get(r, "availableCredit"),
                Get(r, "openedDate"), Get(r, "closedDate"))
  }

  /** A statement's date: closing, else opening, else due date. */
  function StatementDt(r: Record): Value
  {
    First([Get(r, "closingDateTime"), Get(r, "openingDateTime"), Get(r, "dueDate")])
  }

  function MetaOfStatement(parse: Parser, r: Record): NodeMeta
  {
    var dt := StatementDt(r);
    StatementMeta(dt, Ym(parse, dt), Get(r, "statementId"), Get(r, "dueDate"), Get(r, "closingDateTime"),
                  Get(r, "interestCharged"), Get(r, "minimumPaymentDue"), Get(r, "newBalance"))
  }

  /** A transaction's canonical date: the transaction date, else the posting date. */
  function TransactionDt(r: Record): Value
  {
    First([Get(r, "transactionDateTime"), Get(r, "postingDateTime")])
  }

  /**
   * The display type, else the transaction type, else empty; stripped and
   * lower-cased. The record models declare both as text.
   */
  function TransactionType(r: Record): string
  {
    Lower(Strip(StrOf(Or(Get(r, "displayTransactionType"), Or(Get(r, "transactionType"), Str(""))))))
  }

  /** `str(r.get("debitCreditIndicator", "1")) == "1"`: a missing indicator reads as a debit. */
  predicate IsDebit(show: JsonLoader.Show, r: Record)
  {
    "debitCreditIndicator" !in r || show(r["debitCreditIndicator"]) == "1"
  }

  function MetaOfTransaction(parse: Parser, show: JsonLoader.Show, r: Record): NodeMeta
  {
    var dt := TransactionDt(r);
    var t := TransactionType(r);
    var debit := IsDebit(show, r);
    TransactionMeta(dt, Ym(parse, dt), Or(Get(r, "merchantName"), Or(Get(r, "merchantDescription"), Get(r, "merchantCategoryName"))),
                    Get(r, "amount"), t, debit, debit && t !in ExcludeTypes, Get(r, "transactionId"))
  }

  /** A payment's date: the payment date, else the scheduled date. */
  function PaymentDt(r: Record): Value
  {
    First([Get(r, "paymentDateTime"), Get(r, "scheduledPaymentDateTime")])
  }

  function MetaOfPayment(parse: Parser, r: Record): NodeMeta
  {
    var dt := PaymentDt(r);
    PaymentMeta(dt, Ym(parse, dt), Get(r, "paymentId"), Get(r, "amount"), Or(Get(r, "status"), Get(r, "paymentStatus")))
  }

  /** The two policy lines at the head of every transaction node. */
  const Banner: string :=
    "DATE_POLICY: use transactionDateTime; fallback postingDateTime; ignore authDateTime.\n"
    + "SPEND_POLICY: only debit/outflow; exclude payment/refund/credit/interest.\n"

  /** The node of one record: a kind line (and, for transactions, the policies and raw dates), then the JSON. */
  function NodeFor(parse: Parser, show: JsonLoader.Show, dumps: JsonLoader.Dumps, kind: JsonLoader.Kind, r: Record): Node
  {
    match kind
    case AccountSummary => Node("ACCOUNT\nJSON:\n" + dumps(r), MetaOfAccount(r))
    case Statement => Node("STATEMENT\nJSON:\n" + dumps(r), MetaOfStatement(parse, r))
    case Transaction =>
      Node("TRANSACTION\n" + Banner
           + "transactionDateTime=" + show(Get(r, "transactionDateTime")) + "\n"
           + "postingDateTime=" + show(Get(r, "postingDateTime")) + "\n"
           + "authDateTime=" + show(Get(r, "authDateTime")) + "\n"
           + "JSON:\n" + dumps(r), MetaOfTransaction(parse, show, r))
    case Payment => Node("PAYMENT\nJSON:\n" + dumps(r), MetaOfPayment(parse, r))
  }

  /** The node of the agreement text. */
  function AgreementNode(text: string): Node
  {
    Node("AGREEMENT\n" + text, AgreementMeta)
  }

  // ---------------------------------------------------------------------------
  // Properties of the metadata
  // ---------------------------------------------------------------------------

  /**
   * A statement's date is closing, else opening, else due (by truthiness),
   * None when none is set; its `ym` is the bucket of that date and None when
   * the date is None.
   */
  lemma StatementMetaSpec(parse: Parser, r: Record)
    ensures var m, c, o, d := MetaOfStatement(parse, r), Get(r, "closingDateTime"), Get(r, "openingDateTime"), Get(r, "dueDate");
      && m.StatementMeta?
      && m.dtIso == (if Truthy(c) then c else if Truthy(o) then o else if Truthy(d) then d else Null)
      && m.ym == Ym(parse, m.dtIso)
      && (m.dtIso == Null ==> m.ym == Null)
  {
    First3(Get(r, "closingDateTime"), Get(r, "openingDateTime"), Get(r, "dueDate"));
  }

  /** A transaction's date is the transaction date, else the posting date, else None; its `ym` is that date's bucket. */
  lemma TransactionDtSpec(parse: Parser, show: JsonLoader.Show, r: Record)
    ensures var m, t, p := MetaOfTransaction(parse, show, r), Get(r, "transactionDateTime"), Get(r, "postingDateTime");
      && m.TransactionMeta?
      && m.dtIso == (if Truthy(t) then t else if Truthy(p) then p else Null)
      && m.ym == Ym(parse, m.dtIso)
  {
    First2(Get(r, "transactionDateTime"), Get(r, "postingDateTime"));
  }

  /**
   * A transaction is spend exactly when it is a debit whose type is not
   * excluded, and a debit when the indicator is missing or renders as `1`.
   */
  lemma TransactionSpendSpec(parse: Parser, show: JsonLoader.Show, r: Record)
    ensures var m := MetaOfTransaction(parse, show, r);
      && (m.spendCandidate <==> m.debit && m.txType !in ExcludeTypes)
      && (m.debit <==> "debitCreditIndicator" !in r || show(r["debitCreditIndicator"]) == "1")
      && m.txType == Lower(Strip(StrOf(Or(Get(r, "displayTransactionType"), Or(Get(r, "transactionType"), Str(""))))))
  {
  }

  /** The authorisation date never reaches a transaction's metadata. */
  lemma AuthDateIgnored(parse: Parser, show: JsonLoader.Show, r: Record, v: Value)
    ensures MetaOfTransaction(parse, show, r["authDateTime" := v]) == MetaOfTransaction(parse, show, r)
  {
    AuthDateKeepsDerived(show, r, v);
    AuthDateKeepsFields(r, v);
    MetaFromParts(parse, show, r["authDateTime" := v], r);
  }

  /** Two records that agree on every field the metadata reads give the same metadata. */
  lemma MetaFromParts(parse: Parser, show: JsonLoader.Show, r: Record, q: Record)
    requires TransactionDt(r) == TransactionDt(q) && TransactionType(r) == TransactionType(q)
    requires IsDebit(show, r) == IsDebit(show, q)
    requires Get(r, "merchantName") == Get(q, "merchantName")
    requires Get(r, "merchantDescription") == Get(q, "merchantDescription")
    requires Get(r, "merchantCategoryName") == Get(q, "merchantCategoryName")
    requires Get(r, "amount") == Get(q, "amount") && Get(r, "transactionId") == Get(q, "transactionId")
    ensures MetaOfTransaction(parse, show, r) == MetaOfTransaction(parse, show, q)
  {
  }

  /** The date, the type and the debit test read no authorisation date. */
  lemma AuthDateKeepsDerived(show: JsonLoader.Show, r: Record, v: Value)
    ensures TransactionDt(r["authDateTime" := v]) == TransactionDt(r)
    ensures TransactionType(r["authDateTime" := v]) == TransactionType(r)
    ensures IsDebit(show, r["authDateTime" := v]) == IsDebit(show, r)
  {
    var r' := r["authDateTime" := v];
    assert Get(r', "transactionDateTime") == Get(r, "transactionDateTime");
    assert Get(r', "postingDateTime") == Get(r, "postingDateTime");
    assert Get(r', "displayTransactionType") == Get(r, "displayTransactionType");
    assert Get(r', "transactionType") == Get(r, "transactionType");
  }

  /** The fields copied into a transaction's metadata are not the authorisation date. */
  lemma AuthDateKeepsFields(r: Record, v: Value)
    ensures Get(r["authDateTime" := v], "merchantName") == Get(r, "merchantName")
    ensures Get(r["authDateTime" := v], "merchantDescription") == Get(r, "merchantDescription")
    ensures Get(r["authDateTime" := v], "merchantCategoryName") == Get(r, "merchantCategoryName")
    ensures Get(r["authDateTime" := v], "amount") == Get(r, "amount")
    ensures Get(r["authDateTime" := v], "transactionId") == Get(r, "transactionId")
  {
  }

  /** A payment's date is the payment date, else the scheduled date, else None. */
  lemma PaymentMetaSpec(parse: Parser, r: Record)
    ensures var m, p, s := MetaOfPayment(parse, r), Get(r, "paymentDateTime"), Get(r, "scheduledPaymentDateTime");
      && m.PaymentMeta?
      && m.dtIso == (if Truthy(p) then p else if Truthy(s) then s else Null)
      && m.ym == Ym(parse, m.dtIso)
  {
    First2(Get(r, "paymentDateTime"), Get(r, "scheduledPaymentDateTime"));
  }

  // ---------------------------------------------------------------------------
  // build_indexes
  // ---------------------------------------------------------------------------

  /** How a record of a kind becomes a node: `NodeFor`, or any other rule. */
  type Builder = (JsonLoader.Kind, Record) -> Node

  /** `NodeFor` as such a rule. */
  function BuilderOf(parse: Parser, show: JsonLoader.Show, dumps: JsonLoader.Dumps): Builder
  {
    (k: JsonLoader.Kind, r: Record) => NodeFor(parse, show, dumps, k, r)
  }

  /** The nodes of one kind's records, in record order. */
  function Nodes(mk: Builder, kind: JsonLoader.Kind, rs: seq<Record>): (r: seq<Node>)
    ensures |r| == |rs|
  {
    if rs == [] then [] else Nodes(mk, kind, rs[..|rs| - 1]) + [mk(kind, rs[|rs| - 1])]
  }

  /** The agreement node, present only when the agreement text is non-empty. */
  function AgreementPart(text: string): (r: seq<Node>)
  {
    if text != "" then [AgreementNode(text)] else []
  }

  /** The node list: accounts, statements, transactions, payments, then the agreement. */
  function AllNodes(mk: Builder, b: Bundle, agreement: string): seq<Node>
  {
    Nodes(mk, JsonLoader.AccountSummary, b.accounts) + Nodes(mk, JsonLoader.Statement, b.statements)
    + Nodes(mk, JsonLoader.Transaction, b.transactions) + Nodes(mk, JsonLoader.Payment, b.payments)
    + AgreementPart(agreement)
  }

  /** What `build_indexes` produces, as far as the nodes go: the list, or the error when it is empty. */
  function Built(mk: Builder, b: Bundle, agreement: string): Result<seq<Node>>
  {
    var nodes := AllNodes(mk, b, agreement);
    if nodes == [] then Err("No nodes created: check your data files in the /data folder.") else Ok(nodes)
  }

  /** One of the per-kind loops: appends the node `mk` builds for each record, in order. */
  method AppendNodes(nodes: seq<Node>, mk: Builder, kind: JsonLoader.Kind, rs: seq<Record>) returns (out: seq<Node>)
    ensures out == nodes + Nodes(mk, kind, rs)
  {
    out := nodes;
    for i := 0 to |rs|
      invariant out == nodes + Nodes(mk, kind, rs[..i])
    {
      NodesSnoc(mk, kind, rs, i);
      out := out + [mk(kind, rs[i])];
    }
    assert rs[..|rs|] == rs;
  }

  /** `build_indexes` up to the index construction: the nodes `NodeFor` builds, or the error on an empty list. */
  method BuildIndexes(b: Bundle, agreement: string, parse: Parser, show: JsonLoader.Show, dumps: JsonLoader.Dumps)
    returns (result: Result<seq<Node>>)
    ensures result == Built(BuilderOf(parse, show, dumps), b, agreement)
  {
    result := CollectNodes(b, agreement, BuilderOf(parse, show, dumps));
  }

  /** The node-collecting part of `build_indexes`, for any way of building one record's node. */
  method CollectNodes(b: Bundle, agreement: string, mk: Builder) returns (result: Result<seq<Node>>)
    ensures result == Built(mk, b, agreement)
  {
    var nodes := AppendNodes([], mk, JsonLoader.AccountSummary, b.accounts);
    ghost var na := Nodes(mk, JsonLoader.AccountSummary, b.accounts);
    assert nodes == na by {
      assert [] + na == na;
    }
    nodes := AppendNodes(nodes, mk, JsonLoader.Statement, b.statements);
    nodes := AppendNodes(nodes, mk, JsonLoader.Transaction, b.transactions);
    nodes := AppendNodes(nodes, mk, JsonLoader.Payment, b.payments);
    if agreement != "" {
      nodes := nodes + [AgreementNode(agreement)];
    }
    assert nodes == AllNodes(mk, b, agreement);
    if nodes == [] {
      return Err("No nodes created: check your data files in the /data folder.");
    }
    return Ok(nodes);
  }

  /** One more record, one more node at the end. */
  lemma NodesSnoc(mk: Builder, kind: JsonLoader.Kind, rs: seq<Record>, i: nat)
    requires i < |rs|
    ensures Nodes(mk, kind, rs[..i + 1]) == Nodes(mk, kind, rs[..i]) + [mk(kind, rs[i])]
  {
    assert rs[..i + 1][..i] == rs[..i];
  }

  /** The node at a position of a kind's run is the one for the record at that position. */
  lemma {:induction false} NodesAt(mk: Builder, kind: JsonLoader.Kind, rs: seq<Record>, i: nat)
    requires i < |rs|
    ensures Nodes(mk, kind, rs)[i] == mk(kind, rs[i])
    decreases |rs|
  {
    if i < |rs| - 1 {
      NodesAt(mk, kind, rs[..|rs| - 1], i);
    }
  }

  /**
   * One node per record, kinds in the order accounts, statements,
   * transactions, payments, records in their order within each kind, and the
   * agreement node last exactly when the agreement text is non-empty.
   */
  lemma AllNodesOrder(mk: Builder, b: Bundle, agreement: string)
    ensures var nodes, a, s, t, p := AllNodes(mk, b, agreement), b.accounts, b.statements, b.transactions, b.payments;
      && |nodes| == |a| + |s| + |t| + |p| + (if agreement != "" then 1 else 0)
      && (forall i :: 0 <= i < |a| ==> nodes[i] == mk(JsonLoader.AccountSummary, a[i]))
      && (forall i :: 0 <= i < |s| ==> nodes[|a| + i] == mk(JsonLoader.Statement, s[i]))
      && (forall i :: 0 <= i < |t| ==> nodes[|a| + |s| + i] == mk(JsonLoader.Transaction, t[i]))
      && (forall i :: 0 <= i < |p| ==> nodes[|a| + |s| + |t| + i] == mk(JsonLoader.Payment, p[i]))
      && (agreement != "" ==> nodes[|nodes| - 1] == AgreementNode(agreement))
  {
    var a, s, t, p := b.accounts, b.statements, b.transactions, b.payments;
    var na, ns, nt, np := Nodes(mk, JsonLoader.AccountSummary, a), Nodes(mk, JsonLoader.Statement, s),
      Nodes(mk, JsonLoader.Transaction, t), Nodes(mk, JsonLoader.Payment, p);
    var nodes := AllNodes(mk, b, agreement);
    JsonLoader.Concat4Sections(na + ns + nt + np, na, ns, nt, np, |a|, |s|, |t|);
    assert nodes == (na + ns + nt + np) + AgreementPart(agreement);
    forall i | 0 <= i < |a| ensures na[i] == mk(JsonLoader.AccountSummary, a[i]) {
      NodesAt(mk, JsonLoader.AccountSummary, a, i);
    }
    forall i | 0 <= i < |s| ensures ns[i] == mk(JsonLoader.Statement, s[i]) {
      NodesAt(mk, JsonLoader.Statement, s, i);
    }
    forall i | 0 <= i < |t| ensures nt[i] == mk(JsonLoader.Transaction, t[i]) {
      NodesAt(mk, JsonLoader.Transaction, t, i);
    }
    forall i | 0 <= i < |p| ensures np[i] == mk(JsonLoader.Payment, p[i]) {
      NodesAt(mk, JsonLoader.Payment, p, i);
    }
  }

  /** `build_indexes` fails exactly when there are no records and no agreement text. */
  lemma BuiltFailsOnlyWhenEmpty(mk: Builder, b: Bundle, agreement: string)
    ensures Built(mk, b, agreement).Err? <==>
      b.accounts == [] && b.statements == [] && b.transactions == [] && b.payments == [] && agreement == ""
  {
    AllNodesOrder(mk, b, agreement);
  }
}
