/**
 * `backend/loaders/json_loader.py`: turns the banking records into retrieval
 * documents, each a short header line, `\nJSON::` and the serialised record.
 *
 * Rendering a value inside an f-string (`str`) and `json.dumps` are parameters.
 */
module JsonLoader {
  import opened Common

  /** How an f-string renders a value (`str(v)`, so None renders as `None`). */
  type Show = Value -> string

  /** `json.dumps(record, separators=(",", ":"), ensure_ascii=False)`. */
  type Dumps = Record -> string

  /** The fields the header id is taken from, in the order `or` tries them. */
  const IdKeys: seq<string> := ["statementId", "transactionId", "paymentId", "scheduledPaymentId", "accountId"]

  function IdValues(d: Record): (r: seq<Value>)
    ensures |r| == |IdKeys| && forall i :: 0 <= i < |IdKeys| ==> r[i] == Get(d, IdKeys[i])
  {
    [Get(d, IdKeys[0]), Get(d, IdKeys[1]), Get(d, IdKeys[2]), Get(d, IdKeys[3]), Get(d, IdKeys[4])]
  }

  /** The header id: `d.get("statementId") or ... or d.get("accountId")`. */
  function HeaderId(d: Record): Value
  {
    Or(Get(d, "statementId"), Or(Get(d, "transactionId"), Or(Get(d, "paymentId"),
      Or(Get(d, "scheduledPaymentId"), Get(d, "accountId")))))
  }

  /** The chained `or` is the `or` over the id fields in `IdKeys` order. */
  lemma HeaderIdIsOrAll(d: Record)
    ensures HeaderId(d) == OrAll(IdValues(d))
  {
    var vs := IdValues(d);
    assert vs[4..] == [vs[4]];
    assert vs[3..][1..] == vs[4..];
    assert vs[2..][1..] == vs[3..];
    assert vs[1..][1..] == vs[2..];
    assert OrAll(vs[3..]) == Or(vs[3], vs[4]);
    assert OrAll(vs[2..]) == Or(vs[2], OrAll(vs[3..]));
    assert OrAll(vs[1..]) == Or(vs[1], OrAll(vs[2..]));
  }

  /**
   * The header id is the first truthy id field; when none is truthy it is the
   * (falsy) `accountId` value, and the header then shows an id only if `ym` is truthy.
   */
  lemma HeaderIdFirstTruthy(d: Record)
    ensures forall i :: (0 <= i < |IdKeys| && Truthy(Get(d, IdKeys[i]))
      && (forall j :: 0 <= j < i ==> !Truthy(Get(d, IdKeys[j])))) ==> HeaderId(d) == Get(d, IdKeys[i])
    ensures (forall i :: 0 <= i < |IdKeys| ==> !Truthy(Get(d, IdKeys[i]))) ==> HeaderId(d) == Get(d, "accountId")
  {
    var vs := IdValues(d);
    HeaderIdIsOrAll(d);
    OrAllPicks(vs);
    forall i | 0 <= i < |IdKeys| && Truthy(Get(d, IdKeys[i])) && (forall j :: 0 <= j < i ==> !Truthy(Get(d, IdKeys[j])))
      ensures HeaderId(d) == Get(d, IdKeys[i])
    {
      assert Truthy(vs[i]) && forall j :: 0 <= j < i ==> !Truthy(vs[j]);
    }
    if forall i :: 0 <= i < |IdKeys| ==> !Truthy(Get(d, IdKeys[i])) {
      assert forall i :: 0 <= i < |vs| ==> !Truthy(vs[i]);
    }
  }

  /** The record kinds `flatten_for_rag` passes to `_short_header`. */
  datatype Kind = AccountSummary | Statement | Transaction | Payment

  /** The kind as text: the `kind` argument and the document's `source`. */
  function Name(k: Kind): string
  {
    match k
    case AccountSummary => "account_summary"
    case Statement => "statement"
    case Transaction => "transaction"
    case Payment => "payment"
  }

  /** The f-string `key=value`. */
  function Pair(key: string, v: string): string
  {
    key + "=" + v
  }

  /** `key=value` when the field is not None. */
  function Field(d: Record, key: string, show: Show): seq<string>
  {
    if Get(d, key) != Null then [Pair(key, show(Get(d, key)))] else []
  }

  /** The extras the header lists after the id and month, by record kind. */
  function Extras(kind: Kind, d: Record, show: Show): seq<string>
  {
    match kind
    case Statement => Field(d, "interestCharged", show) + Field(d, "endingBalance", show)
    case Transaction => (if Truthy(Get(d, "interestFlag")) then ["interestFlag=true"] else []) + Field(d, "amount", show)
    case Payment => Field(d, "amount", show)
    case AccountSummary => []
  }

  /** The part of the header before the extras. */
  function Head(kind: Kind, d: Record, show: Show): string
  {
    var id, ym := HeaderId(d), Get(d, "ym");
    if Truthy(id) || Truthy(ym) then Upper(Name(kind)) + " id=" + show(id) + " ym=" + show(ym) else Upper(Name(kind))
  }

  /** The header line `_short_header` builds. */
  function Header(kind: Kind, d: Record, show: Show): string
  {
    var extras := Extras(kind, d, show);
    Head(kind, d, show) + (if extras != [] then " " + Join(extras, " ") else "")
  }

  /** `_short_header`: collects the extras one by one, then joins them after the head. */
  method ShortHeader(kind: Kind, d: Record, show: Show) returns (hdr: string)
    ensures hdr == Header(kind, d, show)
  {
    var id := Or(Get(d, "statementId"), Or(Get(d, "transactionId"), Or(Get(d, "paymentId"),
      Or(Get(d, "scheduledPaymentId"), Get(d, "accountId")))));
    var ym := Get(d, "ym");
    var extra: seq<string> := [];
    if kind == Statement {
      if Get(d, "interestCharged") != Null {
        extra := extra + [Pair("interestCharged", show(d["interestCharged"]))];
      }
      if Get(d, "endingBalance") != Null {
        extra := extra + [Pair("endingBalance", show(d["endingBalance"]))];
      }
    }
    if kind == Transaction {
      if Truthy(Get(d, "interestFlag")) {
        extra := extra + ["interestFlag=true"];
      }
      if Get(d, "amount") != Null {
        extra := extra + [Pair("amount", show(d["amount"]))];
      }
    }
    if kind == Payment {
      if Get(d, "amount") != Null {
        extra := extra + [Pair("amount", show(d["amount"]))];
      }
    }
    var head := if Truthy(id) || Truthy(ym) then Upper(Name(kind)) + " id=" + show(id) + " ym=" + show(ym) else Upper(Name(kind));
    hdr := head + (if extra != [] then " " + Join(extra, " ") else "");
  }

  /**
   * The header starts with the upper-cased kind, and is exactly that when the
   * record has no truthy id or month and no extras. There are at most two
   * extras: a statement lists both only when `interestCharged` and
   * `endingBalance` are both not None; a transaction lists
   * `interestFlag=true` exactly when its flag is truthy; an account lists none.
   */
  lemma HeaderShape(kind: Kind, d: Record, show: Show)
    ensures StartsWith(Header(kind, d, show), Upper(Name(kind)))
    ensures !Truthy(HeaderId(d)) && !Truthy(Get(d, "ym")) && Extras(kind, d, show) == [] ==> Header(kind, d, show) == Upper(Name(kind))
    ensures |Extras(kind, d, show)| <= 2
    ensures kind == Statement ==>
      (|Extras(kind, d, show)| == 2 <==> Get(d, "interestCharged") != Null && Get(d, "endingBalance") != Null)
    ensures kind == Transaction ==>
      ("interestFlag=true" in Extras(kind, d, show) <==> Truthy(Get(d, "interestFlag")))
    ensures kind == AccountSummary ==> Extras(kind, d, show) == []
  {
    HeaderStarts(kind, d, show);
    ExtrasShape(kind, d, show);
  }

  /** The header starts with the upper-cased kind, and is only that when nothing follows it. */
  lemma HeaderStarts(kind: Kind, d: Record, show: Show)
    ensures StartsWith(Header(kind, d, show), Upper(Name(kind)))
    ensures !Truthy(HeaderId(d)) && !Truthy(Get(d, "ym")) && Extras(kind, d, show) == [] ==> Header(kind, d, show) == Upper(Name(kind))
  {
    var t := Upper(Name(kind));
    var id, ym := HeaderId(d), Get(d, "ym");
    var extras := Extras(kind, d, show);
    StartsWithSelf(t);
    if Truthy(id) || Truthy(ym) {
      StartsWithAppend(t, t, " id=");
      StartsWithAppend(t + " id=", t, show(id));
      StartsWithAppend(t + " id=" + show(id), t, " ym=");
      StartsWithAppend(t + " id=" + show(id) + " ym=", t, show(ym));
    }
    if extras != [] {
      StartsWithAppend(Head(kind, d, show), t, " " + Join(extras, " "));
    }
  }

  lemma StartsWithSelf(t: string)
    ensures StartsWith(t, t)
  {
  }

  /** Text appended after `s` keeps its prefix `p`. */
  lemma StartsWithAppend(s: string, p: string, r: string)
    requires StartsWith(s, p)
    ensures StartsWith(s + r, p)
  {
    assert (s + r)[..|p|] == s[..|p|];
  }

  /** Which extra fields each kind lists. */
  lemma ExtrasShape(kind: Kind, d: Record, show: Show)
    ensures |Extras(kind, d, show)| <= 2
    ensures kind == Statement ==>
      (|Extras(kind, d, show)| == 2 <==> Get(d, "interestCharged") != Null && Get(d, "endingBalance") != Null)
    ensures kind == Transaction ==>
      ("interestFlag=true" in Extras(kind, d, show) <==> Truthy(Get(d, "interestFlag")))
    ensures kind == AccountSummary ==> Extras(kind, d, show) == []
  {
    if kind == Transaction && !Truthy(Get(d, "interestFlag")) {
      AmountIsNotFlag(d, show);
    }
  }

  lemma AmountIsNotFlag(d: Record, show: Show)
    ensures "interestFlag=true" !in Field(d, "amount", show)
  {
    var f := Field(d, "amount", show);
    if f != [] {
      assert f[0][0] == 'a';
    }
  }

  // ---------------------------------------------------------------------------
  // flatten_for_rag
  // ---------------------------------------------------------------------------

  /** The input mapping: section name to its records. */
  type Sections = map<string, seq<Record>>

  /** `data.get(key, [])`: a missing section is empty. */
  function Section(data: Sections, key: string): (r: seq<Record>)
    ensures key !in data ==> r == []
  {
    if key in data then data[key] else []
  }

  /** The id a document's metadata carries, by kind; a payment falls back to its scheduled id. */
  function MetaId(kind: Kind, r: Record): Value
  {
    match kind
    case AccountSummary => Get(r, "accountId")
    case Statement => Get(r, "statementId")
    case Transaction => Get(r, "transactionId")
    case Payment => Or(Get(r, "paymentId"), Get(r, "scheduledPaymentId"))
  }

  /** How each record's header line is written: `_short_header`, or any other rule. */
  type Headers = (Kind, Record) -> string

  /** `_short_header` as such a rule. */
  function HeaderOf(show: Show): Headers
  {
    (k: Kind, r: Record) => Header(k, r, show)
  }

  /** A document's metadata: its id, its month and the record itself. */
  function Meta(kind: Kind, r: Record): Record
  {
    map["id" := MetaId(kind, r), "ym" := Get(r, "ym"), "raw" := Obj(r)]
  }

  /** The document for one record of the given kind. */
  function Doc(kind: Kind, r: Record, header: Headers, dumps: Dumps): Chunk
  {
    Chunk(header(kind, r) + "\nJSON::" + dumps(r), Name(kind),
          Meta(kind, r))
  }

  /** The documents of one section, in record order. */
  function Docs(kind: Kind, rs: seq<Record>, header: Headers, dumps: Dumps): (r: seq<Chunk>)
    ensures |r| == |rs|
  {
    if rs == [] then [] else [Doc(kind, rs[0], header, dumps)] + Docs(kind, rs[1..], header, dumps)
  }

  /** What `flatten_for_rag` returns: accounts, statements, transactions, payments. */
  function Flattened(data: Sections, header: Headers, dumps: Dumps): seq<Chunk>
  {
    Docs(AccountSummary, Section(data, "account_summary"), header, dumps)
    + Docs(Statement, Section(data, "statements"), header, dumps)
    + Docs(Transaction, Section(data, "transactions"), header, dumps)
    + Docs(Payment, Section(data, "payments"), header, dumps)
  }

  /** The body of those loops: the header, `\nJSON::` and the record, with its metadata. */
  method MakeDoc(kind: Kind, r: Record, show: Show, dumps: Dumps) returns (doc: Chunk)
    ensures doc == Doc(kind, r, HeaderOf(show), dumps)
  {
    var hdr := ShortHeader(kind, r, show);
    doc := Chunk(hdr + "\nJSON::" + dumps(r), Name(kind),
                 Meta(kind, r));
  }

  /** One of the four loops of `flatten_for_rag`: appends a document per record, in order. */
  method AppendDocs(docs: seq<Chunk>, kind: Kind, rs: seq<Record>, show: Show, dumps: Dumps) returns (out: seq<Chunk>)
    ensures out == docs + Docs(kind, rs, HeaderOf(show), dumps)
  {
    out := docs;
    for i := 0 to |rs|
      invariant out == docs + Docs(kind, rs[..i], HeaderOf(show), dumps)
    {
      var item := MakeDoc(kind, rs[i], show, dumps);
      AppendStep(docs, out, kind, rs, i, HeaderOf(show), dumps, item);
      out := out + [item];
    }
    assert rs[..|rs|] == rs;
  }

  /** `flatten_for_rag`. */
  method FlattenForRag(data: Sections, show: Show, dumps: Dumps) returns (docs: seq<Chunk>)
    ensures docs == Flattened(data, HeaderOf(show), dumps)
  {
    docs := AppendDocs([], AccountSummary, Section(data, "account_summary"), show, dumps);
    ghost var da := Docs(AccountSummary, Section(data, "account_summary"), HeaderOf(show), dumps);
    assert docs == da by {
      assert [] + da == da;
    }
    docs := AppendDocs(docs, Statement, Section(data, "statements"), show, dumps);
    docs := AppendDocs(docs, Transaction, Section(data, "transactions"), show, dumps);
    docs := AppendDocs(docs, Payment, Section(data, "payments"), show, dumps);
  }

  /**
   * One document per record, sections in the order accounts, statements,
   * transactions, payments, records in their order within each section
   * (`DocsAt` says which document a record gets).
   */
  lemma FlattenedOrder(data: Sections, header: Headers, dumps: Dumps)
    ensures var docs, a, s, t, p :=
        Flattened(data, header, dumps), Section(data, "account_summary"), Section(data, "statements"),
        Section(data, "transactions"), Section(data, "payments");
      && |docs| == |a| + |s| + |t| + |p|
      && (forall i :: 0 <= i < |a| ==> docs[i] == Docs(AccountSummary, a, header, dumps)[i])
      && (forall i :: 0 <= i < |s| ==> docs[|a| + i] == Docs(Statement, s, header, dumps)[i])
      && (forall i :: 0 <= i < |t| ==> docs[|a| + |s| + i] == Docs(Transaction, t, header, dumps)[i])
      && (forall i :: 0 <= i < |p| ==> docs[|a| + |s| + |t| + i] == Docs(Payment, p, header, dumps)[i])
  {
    var a, s, t, p := Section(data, "account_summary"), Section(data, "statements"),
      Section(data, "transactions"), Section(data, "payments");
    var da, ds, dt, dp := Docs(AccountSummary, a, header, dumps), Docs(Statement, s, header, dumps),
      Docs(Transaction, t, header, dumps), Docs(Payment, p, header, dumps);
    var docs := Flattened(data, header, dumps);
    Concat4Sections(docs, da, ds, dt, dp, |a|, |s|, |t|);
  }

  /** The document at a position of a section is the one for the record at that position. */
  lemma {:induction false} DocsAt(kind: Kind, rs: seq<Record>, header: Headers, dumps: Dumps, i: nat)
    requires i < |rs|
    ensures Docs(kind, rs, header, dumps)[i] == Doc(kind, rs[i], header, dumps)
    decreases i
  {
    if i > 0 {
      DocsAt(kind, rs[1..], header, dumps, i - 1);
    }
  }

  /** The documents of two runs of records are those of each run, in order. */
  lemma {:induction false} DocsAppend(kind: Kind, xs: seq<Record>, ys: seq<Record>, header: Headers, dumps: Dumps)
    ensures Docs(kind, xs + ys, header, dumps) == Docs(kind, xs, header, dumps) + Docs(kind, ys, header, dumps)
    decreases |xs|
  {
    if xs != [] {
      assert (xs + ys)[1..] == xs[1..] + ys;
      DocsAppend(kind, xs[1..], ys, header, dumps);
    } else {
      assert xs + ys == ys;
    }
  }

  /** One step of the loop below keeps its invariant. */
  lemma AppendStep(docs: seq<Chunk>, out: seq<Chunk>, kind: Kind, rs: seq<Record>, i: nat, header: Headers, dumps: Dumps, item: Chunk)
    requires i < |rs| && out == docs + Docs(kind, rs[..i], header, dumps) && item == Doc(kind, rs[i], header, dumps)
    ensures out + [item] == docs + Docs(kind, rs[..i + 1], header, dumps)
  {
    DocsSnoc(kind, rs, i, header, dumps);
  }

  /** One more record, one more document at the end. */
  lemma DocsSnoc(kind: Kind, rs: seq<Record>, i: nat, header: Headers, dumps: Dumps)
    requires i < |rs|
    ensures Docs(kind, rs[..i + 1], header, dumps) == Docs(kind, rs[..i], header, dumps) + [Doc(kind, rs[i], header, dumps)]
  {
    assert rs[..i + 1] == rs[..i] + [rs[i]];
    DocsAppend(kind, rs[..i], [rs[i]], header, dumps);
  }

  /** Where the parts of a four-part concatenation sit. */
  lemma Concat4Sections<T>(all: seq<T>, w: seq<T>, x: seq<T>, y: seq<T>, z: seq<T>, m: nat, n: nat, k: nat)
    requires all == w + x + y + z && |w| == m && |x| == n && |y| == k
    ensures |all| == m + n + k + |z|
    ensures forall i :: 0 <= i < m ==> all[i] == w[i]
    ensures forall i :: 0 <= i < n ==> all[m + i] == x[i]
    ensures forall i :: 0 <= i < k ==> all[m + n + i] == y[i]
    ensures forall i :: 0 <= i < |z| ==> all[m + n + k + i] == z[i]
  {
  }

  /**
   * Every document's metadata has exactly the keys `id`, `ym` and `raw`;
   * `raw` is the record itself, the text is the record's header, `\nJSON::`
   * and the serialised record, and a payment's id is `paymentId`, else
   * `scheduledPaymentId`.
   */
  lemma DocShape(kind: Kind, r: Record, header: Headers, dumps: Dumps)
    ensures var doc := Doc(kind, r, header, dumps);
      && doc.meta.Keys == {"id", "ym", "raw"}
      && doc.meta["raw"] == Obj(r)
      && doc.meta["ym"] == Get(r, "ym")
      && doc.source == Name(kind)
      && doc.text == header(kind, doc.meta["raw"].fields) + "\nJSON::" + dumps(doc.meta["raw"].fields)
      && (kind == Payment ==> doc.meta["id"] == (if Truthy(Get(r, "paymentId")) then Get(r, "paymentId") else Get(r, "scheduledPaymentId")))
  {
  }

  /** Every document of a section has the metadata keys `id`, `ym` and `raw`. */
  lemma {:induction false} DocsMetaKeys(kind: Kind, rs: seq<Record>, header: Headers, dumps: Dumps)
    ensures forall x :: x in Docs(kind, rs, header, dumps) ==> x.meta.Keys == {"id", "ym", "raw"}
    decreases |rs|
  {
    if rs != [] {
      DocsMetaKeys(kind, rs[1..], header, dumps);
      DocShape(kind, rs[0], header, dumps);
    }
  }

  /** No flattened document carries an `interest` key in its metadata. */
  lemma NoInterestMeta(data: Sections, header: Headers, dumps: Dumps)
    ensures forall i :: 0 <= i < |Flattened(data, header, dumps)| ==> "interest" !in Flattened(data, header, dumps)[i].meta
  {
    var docs := Flattened(data, header, dumps);
    var da, ds, dt, dp := Docs(AccountSummary, Section(data, "account_summary"), header, dumps),
      Docs(Statement, Section(data, "statements"), header, dumps),
      Docs(Transaction, Section(data, "transactions"), header, dumps),
      Docs(Payment, Section(data, "payments"), header, dumps);
    DocsMetaKeys(AccountSummary, Section(data, "account_summary"), header, dumps);
    DocsMetaKeys(Statement, Section(data, "statements"), header, dumps);
    DocsMetaKeys(Transaction, Section(data, "transactions"), header, dumps);
    DocsMetaKeys(Payment, Section(data, "payments"), header, dumps);
    forall i | 0 <= i < |docs| ensures "interest" !in docs[i].meta {
      assert docs[i] in da + ds + dt + dp;
    }
  }
}
