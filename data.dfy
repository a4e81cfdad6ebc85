/**
 * `core/data.py`: the second set of record models, whose derived fields use
 * `parse_iso` from `core/utils.py` and a different interest rule, and the
 * choice of input files.
 *
 * As in `Banking`, the `Parser` arguments stand for `fromisoformat` and
 * `strptime`, which keep the text's own wall-clock fields.
 */
module Data {
  import opened Common
  import Utils
  import Banking

  /** `Statement._ym`: closing, else opening, else due date, through `parse_iso`. */
  function StatementYm(fromIso: Parser, ymd: Parser, rec: Record): Option<string>
  {
    Utils.YmFromDt(Utils.ParseIso(fromIso, ymd, Banking.StatementDateSource(rec)))
  }

  /** As in the other model, the date is chosen by presence: an unreadable closing date gives no `ym`. */
  lemma StatementYmByPresence(fromIso: Parser, ymd: Parser, rec: Record)
    ensures var c := Get(rec, "closingDateTime");
      Truthy(c) ==> StatementYm(fromIso, ymd, rec) == Utils.YmFromDt(Utils.ParseIso(fromIso, ymd, c))
    ensures var c, o := Get(rec, "closingDateTime"), Get(rec, "openingDateTime");
      !Truthy(c) && Truthy(o) ==> StatementYm(fromIso, ymd, rec) == Utils.YmFromDt(Utils.ParseIso(fromIso, ymd, o))
    ensures var c, o := Get(rec, "closingDateTime"), Get(rec, "openingDateTime");
      !Truthy(c) && !Truthy(o) ==> StatementYm(fromIso, ymd, rec) == Utils.YmFromDt(Utils.ParseIso(fromIso, ymd, Get(rec, "dueDate")))
  {
    OrAll3(Get(rec, "closingDateTime"), Get(rec, "openingDateTime"), Get(rec, "dueDate"));
  }

  /** `Transaction._ym`: transaction date, else posting date, through `parse_iso`. */
  function TransactionYm(fromIso: Parser, ymd: Parser, rec: Record): Option<string>
  {
    Utils.YmFromDt(Utils.ParseIso(fromIso, ymd, Banking.TransactionDateSource(rec)))
  }

  /** `Payment._ym`: payment date, else scheduled date, through `parse_iso`. */
  function PaymentYm(fromIso: Parser, ymd: Parser, rec: Record): Option<string>
  {
    Utils.YmFromDt(Utils.ParseIso(fromIso, ymd, Banking.PaymentDateSource(rec)))
  }

  /**
   * Both record models bucket a record the same way whenever the ISO parser
   * reads the chosen date; they differ only where `parse_iso` falls back to
   * the date-only format.
   */
  lemma YmModelsAgree(fromIso: Parser, ymd: Parser, rec: Record)
    ensures Banking.ParseDt(fromIso, Banking.StatementDateSource(rec)).Some? ==>
      StatementYm(fromIso, ymd, rec) == Banking.StatementYm(fromIso, rec)
    ensures Banking.TransactionDate(fromIso, rec).Some? ==>
      TransactionYm(fromIso, ymd, rec) == Banking.TransactionYm(fromIso, rec)
    ensures Banking.PaymentDate(fromIso, rec).Some? ==>
      PaymentYm(fromIso, ymd, rec) == Banking.PaymentYm(fromIso, rec)
  {
  }

  /** `Transaction._interest`. */
  function InterestFlag(rec: Record): bool
  {
    var t := Upper(StrOf(Or(Get(rec, "transactionType"), Str(""))));
    var dt := Lower(StrOf(Or(Get(rec, "displayTransactionType"), Str(""))));
    var m := Lower(StrOf(Or(Get(rec, "merchantName"), Str(""))));
    Contains(t, "INTEREST") || dt == "interest_charged" || Contains(m, "interest")
  }

  /** The interest flag reads only the type, the display type and the merchant name. */
  lemma InterestFlagOnlyFrom(rec: Record, k: string, v: Value)
    requires k != "transactionType" && k != "displayTransactionType" && k != "merchantName"
    ensures InterestFlag(rec[k := v]) == InterestFlag(rec)
  {
    var r2 := rec[k := v];
    assert Get(r2, "transactionType") == Get(rec, "transactionType");
    assert Get(r2, "displayTransactionType") == Get(rec, "displayTransactionType");
    assert Get(r2, "merchantName") == Get(rec, "merchantName");
  }

  /** Every field the flag reads is case-folded before the test, so the case of a field does not matter. */
  lemma InterestFlagIgnoresCase(rec: Record, k: string, t: string)
    ensures InterestFlag(rec[k := Str(Lower(t))]) == InterestFlag(rec[k := Str(t)])
  {
    CaseBlindField(rec, k, t, "transactionType");
    CaseBlindField(rec, k, t, "displayTransactionType");
    CaseBlindField(rec, k, t, "merchantName");
  }

  /** Lower-casing the text of field `k` leaves every field `f` the same once case-folded. */
  lemma CaseBlindField(rec: Record, k: string, t: string, f: string)
    ensures Upper(StrOf(Or(Get(rec[k := Str(Lower(t))], f), Str("")))) == Upper(StrOf(Or(Get(rec[k := Str(t)], f), Str(""))))
    ensures Lower(StrOf(Or(Get(rec[k := Str(Lower(t))], f), Str("")))) == Lower(StrOf(Or(Get(rec[k := Str(t)], f), Str(""))))
  {
    if f == k {
      UpperFolds(t);
      LowerFolds(t);
    }
  }

  /**
   * The two interest rules disagree in both directions. A transaction known
   * only by a description mentioning interest is flagged by the first record
   * model and not by this one.
   */
  lemma InterestRulesDifferOnDescription(r: Record, d: string)
    requires Get(r, "transactionType") == Null && Get(r, "displayTransactionType") == Null
    requires Get(r, "merchantName") == Null && Get(r, "description") == Str(d)
    requires Contains(Upper(d), "INTEREST")
    ensures Banking.InterestFlag(r) && !InterestFlag(r)
  {
    OrAll3(Null, Null, Str(""));
    OrAll3(Str(d), Null, Str(""));
    if d == "" {
      ContainsShort(Upper(d), "INTEREST");
    }
    assert Banking.DescriptionText(r) == Upper(d);
    ContainsShort("", "INTEREST");
    ContainsShort("", "interest");
  }

  /**
   * ... and a display type reading `interest_charged` behind a set
   * `transactionType` without interest is flagged only by this model, since
   * the first model never looks past the first non-empty type field.
   */
  lemma InterestRulesDifferOnDisplayType(r: Record, t: string, x: string)
    requires Get(r, "transactionType") == Str(t) && t != "" && !Contains(Upper(t), "INTEREST")
    requires Get(r, "displayTransactionType") == Str(x) && Lower(x) == "interest_charged"
    requires Get(r, "merchantName") == Null && Get(r, "description") == Null
    ensures !Banking.InterestFlag(r) && InterestFlag(r)
  {
    OrAll3(Str(t), Str(x), Str(""));
    OrAll3(Null, Null, Str(""));
    assert Banking.TypeText(r) == Upper(t);
    ContainsShort("", "INTEREST");
  }

  /** `_read_json`: a missing file reads as an empty list. */
  function ReadJson(isFile: string -> bool, read: string -> seq<Record>, path: string): (r: seq<Record>)
    ensures !isFile(path) ==> r == []
    ensures isFile(path) ==> r == read(path)
  {
    if !isFile(path) then [] else read(path)
  }

  /** The account file `load_bundle` reads: `account-summary.json`, else `account_summary.json`. */
  function AccountSummaryFile(isFile: string -> bool): (r: string)
    ensures isFile("account-summary.json") <==> r == "account-summary.json"
    ensures !isFile("account-summary.json") <==> r == "account_summary.json"
  {
    if isFile("account-summary.json") then "account-summary.json" else "account_summary.json"
  }

  /** The records `load_bundle` reads for the account summary: the second name only counts when the first is absent. */
  lemma AccountSummaryPreferred(isFile: string -> bool, read: string -> seq<Record>)
    ensures isFile("account-summary.json") ==>
      ReadJson(isFile, read, AccountSummaryFile(isFile)) == read("account-summary.json")
    ensures !isFile("account-summary.json") && !isFile("account_summary.json") ==>
      ReadJson(isFile, read, AccountSummaryFile(isFile)) == []
  {
  }
}
