/**
 * `backend/models/banking.py`: the derived fields the record models compute
 * from the raw fields (`info.data`) when a record is validated.
 *
 * The `Parser` argument stands for `datetime.fromisoformat`: a moment keeps
 * the text's own wall-clock fields, so "2024-03-01T00:30:00+02:00" is in
 * month 2024-03 here.
 */
module Banking {
  import opened Common
  import Utils

  /**
   * `_parse_dt`: a falsy value gives None; otherwise the ISO parser (which
   * reads a trailing `Z` as `+00:00`) decides. Text is the only value the
   * parser accepts: on anything else `replace` raises and None results.
   */
  function ParseDt(fromIso: Parser, v: Value): (r: Option<Timestamp>)
    ensures r.None? <==> !Truthy(v) || !v.Str? || fromIso(v.s).None?
    ensures r.Some? ==> r == fromIso(v.s)
  {
    if !Truthy(v) || !v.Str? then None else fromIso(v.s)
  }

  /** The raw value a statement's `ym` is parsed from: closing, else opening, else due date. */
  function StatementDateSource(rec: Record): Value
  {
    OrAll([Get(rec, "closingDateTime"), Get(rec, "openingDateTime"), Get(rec, "dueDate")])
  }

  /** `Statement._set_ym`. */
  function StatementYm(fromIso: Parser, rec: Record): Option<string>
  {
    Utils.YmFromDt(ParseDt(fromIso, StatementDateSource(rec)))
  }

  /**
   * The date is chosen by presence, not by whether it parses: a non-empty
   * closing date that does not parse gives no `ym`, even when the opening
   * date would.
   */
  lemma StatementYmByPresence(fromIso: Parser, rec: Record)
    ensures var c, o, d := Get(rec, "closingDateTime"), Get(rec, "openingDateTime"), Get(rec, "dueDate");
      && (Truthy(c) ==> StatementYm(fromIso, rec) == Utils.YmFromDt(ParseDt(fromIso, c)))
      && (!Truthy(c) && Truthy(o) ==> StatementYm(fromIso, rec) == Utils.YmFromDt(ParseDt(fromIso, o)))
      && (!Truthy(c) && !Truthy(o) ==> StatementYm(fromIso, rec) == Utils.YmFromDt(ParseDt(fromIso, d)))
  {
    OrAll3(Get(rec, "closingDateTime"), Get(rec, "openingDateTime"), Get(rec, "dueDate"));
  }

  /** The statement-date rule above, on a record whose closing date is unreadable. */
  lemma StatementYmBadClosing(fromIso: Parser, rec: Record)
    requires Truthy(Get(rec, "closingDateTime")) && ParseDt(fromIso, Get(rec, "closingDateTime")).None?
    ensures StatementYm(fromIso, rec) == None
  {
    StatementYmByPresence(fromIso, rec);
  }

  /** The raw value a transaction's date is parsed from: transaction date, else posting date. */
  function TransactionDateSource(rec: Record): Value
  {
    Or(Get(rec, "transactionDateTime"), Get(rec, "postingDateTime"))
  }

  /** `Transaction._set_date_dt`. */
  function TransactionDate(fromIso: Parser, rec: Record): Option<Timestamp>
  {
    ParseDt(fromIso, TransactionDateSource(rec))
  }

  /** `Transaction._set_ym`: the bucket of the transaction's date. */
  function TransactionYm(fromIso: Parser, rec: Record): (r: Option<string>)
    ensures r == Utils.YmFromDt(TransactionDate(fromIso, rec))
  {
    Utils.YmFromDt(ParseDt(fromIso, Or(Get(rec, "transactionDateTime"), Get(rec, "postingDateTime"))))
  }

  /** Only the transaction and posting dates matter: any other field may change freely. */
  lemma TransactionDateOnlyFrom(fromIso: Parser, rec: Record, k: string, v: Value)
    requires k != "transactionDateTime" && k != "postingDateTime"
    ensures TransactionDate(fromIso, rec[k := v]) == TransactionDate(fromIso, rec)
    ensures TransactionYm(fromIso, rec[k := v]) == TransactionYm(fromIso, rec)
  {
    assert Get(rec[k := v], "transactionDateTime") == Get(rec, "transactionDateTime");
    assert Get(rec[k := v], "postingDateTime") == Get(rec, "postingDateTime");
  }

  /** The type text the interest flag looks at: the first non-empty of the two type fields. */
  function TypeText(rec: Record): string
  {
    Upper(StrOf(OrAll([Get(rec, "transactionType"), Get(rec, "displayTransactionType"), Str("")])))
  }

  /** The description text the interest flag looks at: description, else merchant name. */
  function DescriptionText(rec: Record): string
  {
    Upper(StrOf(OrAll([Get(rec, "description"), Get(rec, "merchantName"), Str("")])))
  }

  /** `Transaction._set_interest`. */
  function InterestFlag(rec: Record): bool
  {
    Contains(TypeText(rec), "INTEREST") || Contains(DescriptionText(rec), "INTEREST")
  }

  /** The interest flag reads only the two type fields, the description and the merchant name. */
  lemma InterestFlagOnlyFrom(rec: Record, k: string, v: Value)
    requires k != "transactionType" && k != "displayTransactionType" && k != "description" && k != "merchantName"
    ensures InterestFlag(rec[k := v]) == InterestFlag(rec)
  {
    var r2 := rec[k := v];
    assert Get(r2, "transactionType") == Get(rec, "transactionType");
    assert Get(r2, "displayTransactionType") == Get(rec, "displayTransactionType");
    assert Get(r2, "description") == Get(rec, "description");
    assert Get(r2, "merchantName") == Get(rec, "merchantName");
  }

  /** Both texts are upper-cased before the test, so the case of a field the flag reads does not matter. */
  lemma InterestFlagIgnoresCase(rec: Record, k: string, t: string)
    ensures InterestFlag(rec[k := Str(Lower(t))]) == InterestFlag(rec[k := Str(t)])
  {
    var a, b := rec[k := Str(Lower(t))], rec[k := Str(t)];
    CaseBlindField(rec, k, t, "transactionType");
    CaseBlindField(rec, k, t, "displayTransactionType");
    CaseBlindField(rec, k, t, "description");
    CaseBlindField(rec, k, t, "merchantName");
    CaseBlindText(Get(a, "transactionType"), Get(b, "transactionType"), Get(a, "displayTransactionType"), Get(b, "displayTransactionType"));
    CaseBlindText(Get(a, "description"), Get(b, "description"), Get(a, "merchantName"), Get(b, "merchantName"));
  }

  /** Lower-casing the text of field `k` changes any field `f` only up to case. */
  lemma CaseBlindField(rec: Record, k: string, t: string, f: string)
    ensures Truthy(Get(rec[k := Str(Lower(t))], f)) == Truthy(Get(rec[k := Str(t)], f))
    ensures Upper(StrOf(Get(rec[k := Str(Lower(t))], f))) == Upper(StrOf(Get(rec[k := Str(t)], f)))
  {
    if f == k {
      UpperFolds(t);
    }
  }

  /** Two fields that agree up to case give texts that agree once upper-cased. */
  lemma CaseBlindText(p: Value, q: Value, p2: Value, q2: Value)
    requires Truthy(p) == Truthy(q) && Upper(StrOf(p)) == Upper(StrOf(q))
    requires Truthy(p2) == Truthy(q2) && Upper(StrOf(p2)) == Upper(StrOf(q2))
    ensures Upper(StrOf(OrAll([p, p2, Str("")]))) == Upper(StrOf(OrAll([q, q2, Str("")])))
  {
    OrAll3(p, p2, Str(""));
    OrAll3(q, q2, Str(""));
  }

  /**
   * Only the first non-empty field of each pair is examined: once
   * `transactionType` is set, `displayTransactionType` cannot change the flag.
   */
  lemma InterestFlagFirstOnly(rec: Record, v: Value)
    requires Truthy(Get(rec, "transactionType"))
    ensures InterestFlag(rec["displayTransactionType" := v]) == InterestFlag(rec)
  {
    var r2 := rec["displayTransactionType" := v];
    assert Get(r2, "transactionType") == Get(rec, "transactionType");
    assert Get(r2, "description") == Get(rec, "description");
    assert Get(r2, "merchantName") == Get(rec, "merchantName");
    assert TypeText(r2) == TypeText(rec);
  }

  /** The raw value a payment's date is parsed from: payment date, else scheduled date. */
  function PaymentDateSource(rec: Record): Value
  {
    Or(Get(rec, "paymentDateTime"), Get(rec, "scheduledPaymentDateTime"))
  }

  /** `Payment._set_date_dt`. */
  function PaymentDate(fromIso: Parser, rec: Record): Option<Timestamp>
  {
    ParseDt(fromIso, PaymentDateSource(rec))
  }

  /** `Payment._set_ym`: the bucket of the payment's date. */
  function PaymentYm(fromIso: Parser, rec: Record): (r: Option<string>)
    ensures r == Utils.YmFromDt(PaymentDate(fromIso, rec))
  {
    Utils.YmFromDt(ParseDt(fromIso, Or(Get(rec, "paymentDateTime"), Get(rec, "scheduledPaymentDateTime"))))
  }

  /** Only the payment and scheduled dates matter: any other field may change freely. */
  lemma PaymentDateOnlyFrom(fromIso: Parser, rec: Record, k: string, v: Value)
    requires k != "paymentDateTime" && k != "scheduledPaymentDateTime"
    ensures PaymentYm(fromIso, rec[k := v]) == PaymentYm(fromIso, rec)
  {
    assert Get(rec[k := v], "paymentDateTime") == Get(rec, "paymentDateTime");
    assert Get(rec[k := v], "scheduledPaymentDateTime") == Get(rec, "scheduledPaymentDateTime");
  }
}
