/**
 * `core/short_answers.py`: keyword intent detection, the extraction prompt's
 * field list, ordinal and money formatting, and the final one- to
 * three-sentence answer built from the fields an LLM extracted.
 */
module ShortAnswers {
  import opened Common

  // ---------------------------------------------------------------------------
  // Intents and the fields the extraction prompt asks for
  // ---------------------------------------------------------------------------

  /**
   * The intents, named as `detect_intent` returns them (`Name`). `Other`
   * stands for any other string handed to `format_answer` or
   * `build_extraction_prompt`: it carries only strings that are none of the
   * names above, which have their own constructors.
   */
  datatype Intent =
    | CurrentBalance | StatementBalance | LastPaymentAmount | LastPaymentDate | LastPostedTransaction
    | AccountStatus | InterestAmount | InterestAmountLast | InterestTotalMonth | InterestTotalYear
    | InterestTotalStatement | InterestDateLast | InterestReason | TopMerchants | SpendTotalMonth
    | SpendTotalYear | Generic
    | Other(name: string)

  function Name(i: Intent): string
  {
    match i
    case CurrentBalance => "current_balance"
    case StatementBalance => "statement_balance"
    case LastPaymentAmount => "last_payment_amount"
    case LastPaymentDate => "last_payment_date"
    case LastPostedTransaction => "last_posted_transaction"
    case AccountStatus => "account_status"
    case InterestAmount => "interest_amount"
    case InterestAmountLast => "interest_amount_last"
    case InterestTotalMonth => "interest_total_month"
    case InterestTotalYear => "interest_total_year"
    case InterestTotalStatement => "interest_total_statement"
    case InterestDateLast => "interest_date_last"
    case InterestReason => "interest_reason"
    case TopMerchants => "top_merchants"
    case SpendTotalMonth => "spend_total_month"
    case SpendTotalYear => "spend_total_year"
    case Generic => "generic"
    case Other(n) => n
  }

  /** `fields.get(intent, ["answer_text"])`: the keys the extraction prompt asks for. */
  function Fields(intent: Intent): (r: seq<string>)
    ensures r != []
  {
    match intent
    case CurrentBalance => ["current_balance"]
    case StatementBalance => ["statement_balance", "statement_ym"]
    case LastPaymentAmount => ["payment_amount", "payment_date"]
    case LastPaymentDate => ["payment_date"]
    case LastPostedTransaction => ["txn_date", "txn_amount", "merchant", "txn_type"]
    case AccountStatus => ["account_status"]
    case InterestAmount => ["interest_total", "interest_date"]
    case InterestAmountLast => ["interest_total", "interest_date"]
    case InterestTotalMonth => ["interest_total", "ym"]
    case InterestTotalYear => ["interest_total", "year"]
    case InterestTotalStatement => ["interest_total", "statement_id", "ym"]
    case InterestDateLast => ["interest_date"]
    case InterestReason => ["interest_total", "interest_date", "reason_text", "period_start", "period_end", "driver_txns"]
    case TopMerchants => ["merchant", "amount", "ym"]
    case SpendTotalMonth => ["spend_total", "ym"]
    case SpendTotalYear => ["spend_total", "year"]
    case Generic => ["answer_text"]
    case Other(_) => ["answer_text"]
  }

  /** The text `detect_intent` inspects: `(q or "").lower().strip()`. */
  function Normalized(q: Option<string>): string
  {
    Strip(Lower(if q.Some? then q.value else ""))
  }

  /** The rules of `detect_intent`, in order, on the normalised text. */
  function IntentOf(s: string): (r: Intent)
    ensures !r.Other?
  {
    if (Contains(s, "why") && Contains(s, "interest")) || (Contains(s, "reason") && Contains(s, "interest")) then InterestReason
    else if Contains(s, "how much") && Contains(s, "interest") && (Contains(s, "last") || Contains(s, "previous")) then InterestAmountLast
    else if Contains(s, "how much") && Contains(s, "interest") then InterestAmount
    else if Contains(s, "interest this month") || (Contains(s, "interest") && Contains(s, "this month")) then InterestTotalMonth
    else if Contains(s, "interest this year") || (Contains(s, "interest") && Contains(s, "this year")) then InterestTotalYear
    else if (Contains(s, "how much") && Contains(s, "interest") && Contains(s, "statement"))
         || (Contains(s, "statement cycle") && Contains(s, "interest")) then InterestTotalStatement
    else if (Contains(s, "when") && Contains(s, "last interest"))
         || (Contains(s, "when") && Contains(s, "interest") && Contains(s, "last")) then InterestDateLast
    else AccountIntentOf(s)
  }

  /** The rules of `detect_intent` after the interest rules: payments, balances, status, transactions, spend. */
  function AccountIntentOf(s: string): (r: Intent)
    ensures !r.Other?
  {
    if (Contains(s, "when") && Contains(s, "last payment")) || (Contains(s, "last payment") && Contains(s, "when")) then LastPaymentDate
    else if (Contains(s, "what") && Contains(s, "last payment") && Contains(s, "amount")) || Contains(s, "last payment amount") then LastPaymentAmount
    else if Contains(s, "what was my last payment") && !Contains(s, "amount") && !Contains(s, "when") then LastPaymentAmount
    else if Contains(s, "statement balance") then StatementBalance
    else if Contains(s, "current balance") || (Contains(s, "balance") && !Contains(s, "statement")) then CurrentBalance
    else if Contains(s, "account status") || Contains(s, "status of my account") then AccountStatus
    else if Contains(s, "last posted transaction") then LastPostedTransaction
    else if Contains(s, "where did i spend most") || Contains(s, "top merchant") then TopMerchants
    else if Contains(s, "how much did i spend") && Contains(s, "year") then SpendTotalYear
    else if Contains(s, "how much did i spend") && Contains(s, "month") then SpendTotalMonth
    else Generic
  }

  /** `detect_intent`: one of the named intents, never some other string. */
  function DetectIntent(q: Option<string>): (r: Intent)
    ensures !r.Other?
  {
    IntentOf(Normalized(q))
  }

  /** The case of the question does not matter. */
  lemma DetectIntentIgnoresCase(q: string)
    ensures DetectIntent(Some(Lower(q))) == DetectIntent(Some(q))
    ensures DetectIntent(Some(Upper(q))) == DetectIntent(Some(q))
  {
    LowerFolds(q);
  }

  /** Whitespace around the question does not matter. */
  lemma DetectIntentIgnoresPadding(q: string)
    ensures DetectIntent(Some(Strip(q))) == DetectIntent(Some(q))
  {
    LowerStrip(q);
    StripIdempotent(Lower(q));
  }

  /** Empty text matches no rule. */
  lemma IntentOfEmpty()
    ensures IntentOf("") == Generic
  {
    NothingInEmpty();
    AccountIntentOfEmpty();
  }

  lemma AccountIntentOfEmpty()
    ensures AccountIntentOf("") == Generic
  {
    NothingInEmpty();
  }

  /** The empty text contains no non-empty phrase. */
  lemma NothingInEmpty()
    ensures forall p: string :: p != [] ==> !Contains("", p)
  {
    forall p: string | p != [] ensures !Contains("", p) {
      ContainsShort("", p);
    }
  }

  /** No question, an empty one or a blank one is `generic`. */
  lemma DetectIntentBlank(q: string)
    requires forall i :: 0 <= i < |q| ==> IsSpace(q[i])
    ensures DetectIntent(None) == Generic
    ensures DetectIntent(Some(q)) == Generic
  {
    forall i | 0 <= i < |q| ensures IsSpace(Lower(q)[i]) {
      LowerCharSpace(q[i]);
    }
    StripAllSpace(Lower(q));
    StripAllSpace("");
    assert Normalized(Some(q)) == "" && Normalized(None) == "";
    IntentOfEmpty();
  }

  /**
   * Normalised text mentioning none of "interest", "payment", "balance",
   * "status", "transaction", "spend" and "top merchant" is `generic`.
   */
  lemma UnmatchedIsGeneric(s: string)
    requires !Contains(s, "interest") && !Contains(s, "payment") && !Contains(s, "balance") && !Contains(s, "status")
    requires !Contains(s, "transaction") && !Contains(s, "spend") && !Contains(s, "top merchant")
    ensures IntentOf(s) == Generic
  {
    InterestPhrasesAbsent(s);
    PaymentPhrasesAbsent(s);
    BalancePhrasesAbsent(s);
    StatusPhrasesAbsent(s);
    if Contains(s, "last posted transaction") { assert "last posted transaction" == "last posted " + "transaction" + ""; ContainsInfix(s, "last posted ", "transaction", ""); }
    SpendPhrasesAbsent(s);
  }

  /** Text without "interest" has none of the interest phrases. */
  lemma InterestPhrasesAbsent(s: string)
    requires !Contains(s, "interest")
    ensures !Contains(s, "interest this month") && !Contains(s, "interest this year") && !Contains(s, "last interest")
  {
    if Contains(s, "interest this month") { assert "interest this month" == "" + "interest" + " this month"; ContainsInfix(s, "", "interest", " this month"); }
    if Contains(s, "interest this year") { assert "interest this year" == "" + "interest" + " this year"; ContainsInfix(s, "", "interest", " this year"); }
    if Contains(s, "last interest") { assert "last interest" == "last " + "interest" + ""; ContainsInfix(s, "last ", "interest", ""); }
  }

  /** Text without "payment" has none of the payment phrases. */
  lemma PaymentPhrasesAbsent(s: string)
    requires !Contains(s, "payment")
    ensures !Contains(s, "last payment") && !Contains(s, "last payment amount") && !Contains(s, "what was my last payment")
  {
    if Contains(s, "last payment") { assert "last payment" == "last " + "payment" + ""; ContainsInfix(s, "last ", "payment", ""); }
    if Contains(s, "last payment amount") { assert "last payment amount" == "last " + "payment" + " amount"; ContainsInfix(s, "last ", "payment", " amount"); }
    if Contains(s, "what was my last payment") { assert "what was my last payment" == "what was my last " + "payment" + ""; ContainsInfix(s, "what was my last ", "payment", ""); }
  }

  /** Text without "balance" has none of the balance phrases. */
  lemma BalancePhrasesAbsent(s: string)
    requires !Contains(s, "balance")
    ensures !Contains(s, "statement balance") && !Contains(s, "current balance")
  {
    if Contains(s, "statement balance") { assert "statement balance" == "statement " + "balance" + ""; ContainsInfix(s, "statement ", "balance", ""); }
    if Contains(s, "current balance") { assert "current balance" == "current " + "balance" + ""; ContainsInfix(s, "current ", "balance", ""); }
  }

  /** Text without "status" has none of the status phrases. */
  lemma StatusPhrasesAbsent(s: string)
    requires !Contains(s, "status")
    ensures !Contains(s, "account status") && !Contains(s, "status of my account")
  {
    if Contains(s, "account status") { assert "account status" == "account " + "status" + ""; ContainsInfix(s, "account ", "status", ""); }
    if Contains(s, "status of my account") { assert "status of my account" == "" + "status" + " of my account"; ContainsInfix(s, "", "status", " of my account"); }
  }

  /** Text without "spend" has none of the spending phrases. */
  lemma SpendPhrasesAbsent(s: string)
    requires !Contains(s, "spend")
    ensures !Contains(s, "where did i spend most") && !Contains(s, "how much did i spend")
  {
    if Contains(s, "where did i spend most") { assert "where did i spend most" == "where did i " + "spend" + " most"; ContainsInfix(s, "where did i ", "spend", " most"); }
    if Contains(s, "how much did i spend") { assert "how much did i spend" == "how much did i " + "spend" + ""; ContainsInfix(s, "how much did i ", "spend", ""); }
  }

  /** `interest_reason` is returned exactly when "interest" comes with "why" or "reason": that rule is checked first. */
  lemma ReasonFirst(s: string)
    ensures IntentOf(s) == InterestReason <==> (Contains(s, "why") || Contains(s, "reason")) && Contains(s, "interest")
  {
  }

  /**
   * Any other text with "how much" and "interest" asks for an interest
   * amount: the last one when it also says "last" or "previous".
   */
  lemma HowMuchInterest(s: string)
    requires Contains(s, "how much") && Contains(s, "interest") && !Contains(s, "why") && !Contains(s, "reason")
    ensures IntentOf(s) == InterestAmountLast <==> Contains(s, "last") || Contains(s, "previous")
    ensures IntentOf(s) == InterestAmountLast || IntentOf(s) == InterestAmount
  {
  }

  /**
   * `interest_total_statement` comes only from "statement cycle" with
   * "interest" and never with "how much": the rule's "how much ... statement"
   * alternative is shadowed by the `interest_amount` rules before it.
   */
  lemma StatementRuleShadowed(s: string)
    ensures IntentOf(s) == InterestTotalStatement ==>
      Contains(s, "statement cycle") && Contains(s, "interest") && !Contains(s, "how much")
  {
  }

  /** `is_explanatory_intent`: only `interest_reason` gets a multi-sentence answer. */
  predicate IsExplanatoryIntent(intent: Intent)
  {
    intent in {InterestReason}
  }

  /** A detected intent is explanatory exactly when the question asks why interest was charged. */
  lemma ExplanatoryIffReason(q: Option<string>)
    ensures IsExplanatoryIntent(DetectIntent(q)) <==>
      (Contains(Normalized(q), "why") || Contains(Normalized(q), "reason")) && Contains(Normalized(q), "interest")
  {
    ReasonFirst(Normalized(q));
  }

  // ---------------------------------------------------------------------------
  // ordinal
  // ---------------------------------------------------------------------------

  /** `s[start::step]`. */
  function Stride(s: string, start: nat, step: nat): (r: string)
    requires step > 0
    decreases |s| - start
  {
    if start >= |s| then "" else [s[start]] + Stride(s, start + step, step)
  }

  /** A Python boolean used as a number. */
  function Num(b: bool): int
  {
    if b then 1 else 0
  }

  /**
   * The index into "tsnrhtdd": `(n//10%10!=1)*(n%10<4)*n%10`. Python's `//`
   * and `%` floor, which for the positive divisor 10 is what Dafny's do.
   */
  function SuffixIndex(n: int): (r: nat)
    ensures r < 10
  {
    (Num(n / 10 % 10 != 1) * Num(n % 10 < 4) * n) % 10
  }

  /** `ordinal(n)`. */
  function Ordinal(n: int): string
  {
    IntStr(n) + Stride("tsnrhtdd", SuffixIndex(n), 4)
  }

  /** The English rule for ordinal suffixes. */
  function EnglishSuffix(n: int): string
  {
    if 11 <= n % 100 <= 13 then "th"
    else if n % 10 == 1 then "st"
    else if n % 10 == 2 then "nd"
    else if n % 10 == 3 then "rd"
    else "th"
  }

  /**
   * `ordinal` writes the number followed by the English suffix: "th" for
   * 11, 12 and 13 modulo 100, otherwise "st", "nd", "rd" for a last digit
   * 1, 2, 3 and "th" for the rest. With floor division this holds for
   * negative numbers too.
   */
  lemma OrdinalSuffix(n: int)
    ensures Ordinal(n) == IntStr(n) + EnglishSuffix(n)
  {
    SuffixIndexDigits(n);
    SuffixTable();
    LastTwoDigits(n);
  }

  /** The last two digits are the tens digit and the units digit. */
  lemma LastTwoDigits(n: int)
    ensures n % 100 == n / 10 % 10 * 10 + n % 10
  {
  }

  /** The index is the last digit when the tens digit is not 1 and the last digit is below 4, else 0. */
  lemma SuffixIndexDigits(n: int)
    ensures SuffixIndex(n) == if n / 10 % 10 != 1 && n % 10 < 4 then n % 10 else 0
  {
    var a, b := Num(n / 10 % 10 != 1), Num(n % 10 < 4);
    if a == 1 && b == 1 {
      assert a * b * n == n;
    } else {
      assert a * b == 0;
    }
  }

  /** The four strides of "tsnrhtdd". */
  lemma SuffixTable()
    ensures Stride("tsnrhtdd", 0, 4) == "th" && Stride("tsnrhtdd", 1, 4) == "st"
    ensures Stride("tsnrhtdd", 2, 4) == "nd" && Stride("tsnrhtdd", 3, 4) == "rd"
  {
    assert Stride("tsnrhtdd", 8, 4) == "";
  }

  // ---------------------------------------------------------------------------
  // fmt_money, on whole cents
  // ---------------------------------------------------------------------------

  /** `f"{n:,}"`: decimal digits with a comma between groups of three. */
  function Group(n: nat): (r: string)
    ensures r != [] && IsDigit(r[0])
  {
    if n < 1000 then NatStr(n) else Group(n / 1000) + "," + PadNat(n % 1000, 3)
  }

  /** `fmt_money` on an amount of cents: `""` for None, else `$`, the sign, the grouped units and two decimals. */
  function FmtMoney(x: Option<int>): (r: string)
  {
    match x
    case None => ""
    case Some(c) =>
      var a := if c < 0 then -c else c;
      "$" + (if c < 0 then "-" else "") + Group(a / 100) + "." + PadNat(a % 100, 2)
  }

  /** The digits of a text, in order, without anything else. */
  function DigitsOf(s: string): (r: string)
    ensures forall i :: 0 <= i < |r| ==> IsDigit(r[i])
  {
    if s == [] then [] else (if IsDigit(s[0]) then [s[0]] else []) + DigitsOf(s[1..])
  }

  lemma {:induction false} DigitsOfConcat(a: string, b: string)
    ensures DigitsOf(a + b) == DigitsOf(a) + DigitsOf(b)
  {
    if a != [] {
      DigitsOfConcat(a[1..], b);
      assert (a + b)[1..] == a[1..] + b;
    } else {
      assert a + b == b;
    }
  }

  lemma {:induction false} DigitsOfDigits(s: string)
    requires forall i :: 0 <= i < |s| ==> IsDigit(s[i])
    ensures DigitsOf(s) == s
  {
    if s != [] {
      DigitsOfDigits(s[1..]);
    }
  }

  /** `x * 10^k`, without multiplying two unknowns. */
  function Shift(x: nat, k: nat): nat
  {
    if k == 0 then x else 10 * Shift(x, k - 1)
  }

  /** Appending a block of digits shifts the value by its length. */
  lemma {:induction false} DecValConcat(a: string, b: string)
    requires forall i :: 0 <= i < |a| ==> IsDigit(a[i])
    requires forall i :: 0 <= i < |b| ==> IsDigit(b[i])
    ensures DecVal(a + b) == Shift(DecVal(a), |b|) + DecVal(b)
  {
    if b != [] {
      var b' := b[..|b| - 1];
      DecValConcat(a, b');
      assert (a + b)[..|a + b| - 1] == a + b';
      assert (a + b)[|a + b| - 1] == b[|b| - 1];
    } else {
      assert a + b == a;
    }
  }

  /** Text without digits has no digits to keep. */
  lemma {:induction false} NoDigits(s: string)
    requires forall i :: 0 <= i < |s| ==> !IsDigit(s[i])
    ensures DigitsOf(s) == []
  {
    if s != [] {
      NoDigits(s[1..]);
    }
  }

  /** Shifting by two or three places multiplies by 100 or 1000. */
  lemma ShiftSmall(x: nat)
    ensures Shift(x, 2) == 100 * x && Shift(x, 3) == 1000 * x
  {
    assert Shift(x, 1) == 10 * x;
  }

  /** The digits of `x`, a separator without digits and a block of digits `y`. */
  lemma DigitsOfSeparated(x: string, sep: string, y: string)
    requires DigitsOf(sep) == []
    requires forall i :: 0 <= i < |y| ==> IsDigit(y[i])
    ensures DigitsOf(x + sep + y) == DigitsOf(x) + y
  {
    DigitsOfConcat(x + sep, y);
    DigitsOfConcat(x, sep);
    DigitsOfDigits(y);
  }

  /** A digit string followed by a block of `k` digits reads as the first shifted by `k`, plus the block. */
  lemma DecValBlock(d: string, lo: string, k: nat)
    requires forall i :: 0 <= i < |d| ==> IsDigit(d[i])
    requires forall i :: 0 <= i < |lo| ==> IsDigit(lo[i])
    requires |lo| == k && (k == 2 || k == 3)
    ensures DecVal(d + lo) == (if k == 2 then 100 else 1000) * DecVal(d) + DecVal(lo)
  {
    DecValConcat(d, lo);
    ShiftSmall(DecVal(d));
  }

  /** The grouping only inserts commas: its digits read back as the number. */
  lemma {:induction false} GroupValue(n: nat)
    ensures DecVal(DigitsOf(Group(n))) == n
  {
    if n < 1000 {
      DigitsOfDigits(NatStr(n));
      NatStrValue(n);
    } else {
      var hi, lo := Group(n / 1000), PadNat(n % 1000, 3);
      GroupValue(n / 1000);
      NatStrLength(n % 1000, 3);
      PadNatValue(n % 1000, 3);
      NoDigits(",");
      DigitsOfSeparated(hi, ",", lo);
      DecValBlock(DigitsOf(hi), lo, 3);
    }
  }

  /** Text made of digit blocks of three separated by commas, the first block one to three digits long. */
  ghost predicate Grouped(s: string)
    decreases |s|
  {
    (1 <= |s| <= 3 && forall i :: 0 <= i < |s| ==> IsDigit(s[i]))
    || (|s| > 4 && s[|s| - 4] == ',' && (forall i :: |s| - 3 <= i < |s| ==> IsDigit(s[i])) && Grouped(s[..|s| - 4]))
  }

  /** The grouping has a comma before every group of three digits and nowhere else. */
  lemma {:induction false} GroupShape(n: nat)
    ensures Grouped(Group(n))
  {
    if n < 1000 {
      NatStrLength(n, 3);
    } else {
      GroupShape(n / 1000);
      NatStrLength(n % 1000, 3);
      PadNatValue(n % 1000, 3);
      var g := Group(n);
      assert g[..|g| - 4] == Group(n / 1000);
    }
  }

  /** The units and decimals `fmt_money` writes for an amount of cents. */
  function Units(c: int): nat
  {
    if c < 0 then -c / 100 else c / 100
  }

  function Decimals(c: int): string
  {
    PadNat(if c < 0 then -c % 100 else c % 100, 2)
  }

  lemma DecimalsSpec(c: int)
    ensures |Decimals(c)| == 2 && DecVal(Decimals(c)) == if c < 0 then -c % 100 else c % 100
  {
    var f := if c < 0 then -c % 100 else c % 100;
    NatStrLength(f, 2);
    PadNatValue(f, 2);
  }

  lemma FmtMoneyParts(c: int)
    ensures FmtMoney(Some(c)) == "$" + (if c < 0 then "-" else "") + Group(Units(c)) + "." + Decimals(c)
  {
  }

  /**
   * `fmt_money(x)`: "" for None; otherwise a dollar sign, a minus sign
   * exactly for negative amounts, the units, a point and exactly two decimals.
   */
  lemma FmtMoneyShape(c: int)
    ensures FmtMoney(None) == ""
    ensures |FmtMoney(Some(c))| >= 5 && FmtMoney(Some(c))[0] == '$'
    ensures FmtMoney(Some(c))[1] == '-' <==> c < 0
    ensures FmtMoney(Some(c))[|FmtMoney(Some(c))| - 3] == '.'
    ensures IsDigit(FmtMoney(Some(c))[|FmtMoney(Some(c))| - 2]) && IsDigit(FmtMoney(Some(c))[|FmtMoney(Some(c))| - 1])
  {
    FmtMoneyParts(c);
    DecimalsSpec(c);
    var g := Group(Units(c));
    var r := FmtMoney(Some(c));
    if c < 0 {
      assert r == ("$-" + g + ".") + Decimals(c);
    } else {
      assert r == ("$" + g + ".") + Decimals(c);
      assert r[1] == g[0];
    }
  }

  /** The digits `fmt_money` writes read back as the amount in cents, without its sign. */
  lemma FmtMoneyValue(c: int)
    ensures DecVal(DigitsOf(FmtMoney(Some(c)))) == if c < 0 then -c else c
  {
    FmtMoneyDigits(c);
    DecimalsSpec(c);
    GroupValue(Units(c));
    DecValBlock(DigitsOf(Group(Units(c))), Decimals(c), 2);
    assert DecVal(Decimals(c)) == (if c < 0 then -c else c) % 100;
  }

  /** The digits of the formatted amount: those of the grouped units, then the two decimals. */
  lemma FmtMoneyDigits(c: int)
    ensures DigitsOf(FmtMoney(Some(c))) == DigitsOf(Group(Units(c))) + Decimals(c)
  {
    FmtMoneyParts(c);
    DecimalsSpec(c);
    var sign := if c < 0 then "-" else "";
    var g, f := Group(Units(c)), Decimals(c);
    NoDigits("$" + sign);
    DigitsOfConcat("$" + sign, g);
    assert DigitsOf("$" + sign + g) == DigitsOf(g);
    NoDigits(".");
    DigitsOfSeparated("$" + sign + g, ".", f);
  }


  // ---------------------------------------------------------------------------
  // build_extraction_prompt
  // ---------------------------------------------------------------------------

  function Quote(k: string): string
  {
    "\"" + k + "\""
  }

  /** `", ".join(f'"{k}"' for k in fields.get(intent, ["answer_text"]))`. */
  function Wanted(intent: Intent): string
  {
    Join(MapSeq(Quote, Fields(intent)), ", ")
  }

  /** The prompt's fixed text, around the field list, the context and the question. */
  const PromptHead: string := "You are a banking assistant. Read ONLY the provided context and return a MINIMAL JSON object\n"
    + "with exactly these keys (omit any you cannot determine): "
  const PromptRules: string := ".\n\nRules:\n- If a value is unknown, omit the key.\n- Money values must be numbers (no currency symbol).\n"
    + "- Dates must be ISO (YYYY-MM-DD or full ISO).\n- Do not add any extra keys or explanations.\n\nContext:\n"
  const PromptAsk: string := "\n\nUser question: "
  const PromptEnd: string := "\n\nReturn JSON only:"

  /** `build_extraction_prompt`, after `.strip()` has removed the template's first and last newline. */
  function ExtractionPrompt(intent: Intent, question: string, context: string): string
  {
    PromptHead + Wanted(intent) + PromptBody(question, context)
  }

  /** The prompt after the field list: the rules, the context, the question and the closing line. */
  function PromptBody(question: string, context: string): string
  {
    PromptRules + context + PromptAsk + question + PromptEnd
  }

  /** The prompt names every field of the intent, quoted. */
  lemma PromptAsksForFields(intent: Intent, question: string, context: string, i: nat)
    requires i < |Fields(intent)|
    ensures Contains(ExtractionPrompt(intent, question, context), Quote(Fields(intent)[i]))
  {
    JoinContains(MapSeq(Quote, Fields(intent)), ", ", i);
    ContainsWithin(PromptHead, Wanted(intent), PromptBody(question, context), Quote(Fields(intent)[i]));
  }

  /** The prompt carries the context and the question as given. */
  lemma PromptCarriesInputs(intent: Intent, question: string, context: string)
    ensures Contains(ExtractionPrompt(intent, question, context), context)
    ensures Contains(ExtractionPrompt(intent, question, context), question)
  {
    var head, body := PromptHead + Wanted(intent), PromptBody(question, context);
    BodyCarriesInputs(question, context);
    assert ExtractionPrompt(intent, question, context) == head + body + "";
    ContainsWithin(head, body, "", context);
    ContainsWithin(head, body, "", question);
  }

  /** The text after the field list holds the context and the question. */
  lemma BodyCarriesInputs(question: string, context: string)
    ensures Contains(PromptBody(question, context), context)
    ensures Contains(PromptBody(question, context), question)
  {
    ContainsSelf(context);
    ContainsWithin(PromptRules, context, PromptAsk, context);
    ContainsExtend(PromptRules + context + PromptAsk, question, context);
    ContainsExtend(PromptRules + context + PromptAsk + question, PromptEnd, context);
    ContainsSelf(question);
    ContainsWithin(PromptRules + context + PromptAsk, question, PromptEnd, question);
  }

  // ---------------------------------------------------------------------------
  // format_answer
  // ---------------------------------------------------------------------------

  /**
   * What `format_answer` leaves to Python and `dateutil`: `float(x)` rounded
   * to whole cents (None when `float` raises), `str(x)` of a value, and
   * `pretty_date` of a non-empty string (the "September 1st, 2024" form, or
   * the string itself when it does not parse).
   */
  datatype Renderers = Renderers(cents: Value -> Option<int>, show: Value -> string, pretty: string -> string)

  /** `f"{v}"` / `str(v)`: a string is itself. */
  function Text(rd: Renderers, v: Value): string
  {
    if v.Str? then v.s else rd.show(v)
  }

  /** `fmt_money(v)` on a data value: None is "", a value `float` rejects is `"$"` and the value. */
  function Money(rd: Renderers, v: Value): string
  {
    if v.Null? then FmtMoney(None)
    else match rd.cents(v)
      case Some(c) => FmtMoney(Some(c))
      case None => "$" + Text(rd, v)
  }

  /** `pretty_date(v)`: "" for a falsy value; a non-string fails to parse and comes back as itself. */
  function PrettyDate(rd: Renderers, v: Value): string
  {
    if !Truthy(v) then "" else if v.Str? then rd.pretty(v.s) else rd.show(v)
  }

  /** "X for {when} is {money}." or "X is {money}." when `when` is falsy. */
  function Total(rd: Renderers, lead: string, mid: string, when: Value, tot: Value): string
  {
    if Truthy(when) then lead + mid + Text(rd, when) + " is " + Money(rd, tot) + "."
    else lead + " is " + Money(rd, tot) + "."
  }

  /** "You spent {money} in {when}." or "You spent {money}.". */
  function Spent(rd: Renderers, when: Value, tot: Value): string
  {
    if Truthy(when) then "You spent " + Money(rd, tot) + " in " + Text(rd, when) + "."
    else "You spent " + Money(rd, tot) + "."
  }

  /** The one-line fact answers; None where `format_answer` falls through to the generic answer. */
  function FactAnswer(intent: Intent, data: Record, rd: Renderers): Option<string>
  {
    var tot := Get(data, "interest_total");
    match intent
    case CurrentBalance =>
      if "current_balance" in data then Some("Your current balance is " + Money(rd, data["current_balance"]) + ".") else None
    case StatementBalance =>
      if Get(data, "statement_balance").Null? then None
      else Some(Total(rd, "Your statement balance", " for ", Get(data, "statement_ym"), Get(data, "statement_balance")))
    case LastPaymentAmount =>
      var amt, dt := Get(data, "payment_amount"), PrettyDate(rd, Get(data, "payment_date"));
      if amt.Null? then None
      else if dt != "" then Some("Your last payment was " + Money(rd, amt) + " on " + dt + ".")
      else Some("Your last payment was " + Money(rd, amt) + ".")
    case LastPaymentDate =>
      var dt := PrettyDate(rd, Get(data, "payment_date"));
      if dt != "" then Some("Your last payment date was " + dt + ".") else None
    case InterestAmount => InterestCharge(rd, tot, PrettyDate(rd, Get(data, "interest_date")))
    case InterestAmountLast => InterestCharge(rd, tot, PrettyDate(rd, Get(data, "interest_date")))
    case InterestTotalMonth =>
      if tot.Null? then None else Some(Total(rd, "Your total interest", " for ", Get(data, "ym"), tot))
    case InterestTotalYear =>
      if tot.Null? then None else Some(Total(rd, "Your total interest", " in ", Get(data, "year"), tot))
    case InterestTotalStatement =>
      if tot.Null? then None else Some(Total(rd, "Your statement-cycle interest", " for ", Get(data, "ym"), tot))
    case InterestDateLast =>
      var dt := PrettyDate(rd, Get(data, "interest_date"));
      if dt != "" then Some("Last interest was applied on " + dt + ".") else None
    case AccountStatus =>
      if "account_status" in data then Some("Your account status is " + Text(rd, data["account_status"]) + ".") else None
    case SpendTotalMonth =>
      if Get(data, "spend_total").Null? then None else Some(Spent(rd, Get(data, "ym"), Get(data, "spend_total")))
    case SpendTotalYear =>
      if Get(data, "spend_total").Null? then None else Some(Spent(rd, Get(data, "year"), Get(data, "spend_total")))
    case TopMerchants =>
      var merch, amt, ym := Get(data, "merchant"), Get(data, "amount"), Get(data, "ym");
      if !Truthy(merch) || amt.Null? then None
      else if Truthy(ym) then Some("You spent most at " + Text(rd, merch) + " in " + Text(rd, ym) + ", totaling " + Money(rd, amt) + ".")
      else Some("You spent most at " + Text(rd, merch) + ", totaling " + Money(rd, amt) + ".")
    case _ => None
  }

  /** The answer for `interest_amount` and `interest_amount_last`. */
  function InterestCharge(rd: Renderers, tot: Value, dt: string): Option<string>
  {
    if tot.Null? then None
    else if dt != "" then Some("Your last interest charge was " + Money(rd, tot) + " on " + dt + ".")
    else Some("Your last interest charge was " + Money(rd, tot) + ".")
  }

  /** The details of the last posted transaction: amount, merchant, lower-cased type, each when known. */
  function PostedParts(data: Record, rd: Renderers): seq<string>
  {
    (if !Get(data, "txn_amount").Null? then [Money(rd, Get(data, "txn_amount"))] else [])
    + (if Truthy(Get(data, "merchant")) then [Text(rd, Get(data, "merchant"))] else [])
    + (if Truthy(Get(data, "txn_type")) then [Lower(Text(rd, Get(data, "txn_type")))] else [])
  }

  /** The separator between transaction details. */
  const Bullet: string := " \U{2022} "

  /** The details joined by bullets, or "No details available". */
  function PostedCore(parts: seq<string>): string
  {
    if parts != [] then Join(parts, Bullet) else "No details available"
  }

  /** The answer for `last_posted_transaction`, which never falls through. */
  function PostedAnswer(data: Record, rd: Renderers, parts: seq<string>): string
  {
    var dt := PrettyDate(rd, Get(data, "txn_date"));
    if dt != "" then "Your last posted transaction was on " + dt + ": " + PostedCore(parts) + "."
    else "Your last posted transaction: " + PostedCore(parts) + "."
  }

  /** Sentence 1 of an explanation: the interest charged, with amount and date when known. */
  function Headline(amount: string, dt: string): (r: string)
  {
    if amount != "" && dt != "" then "Interest of " + amount + " was charged on " + dt + "."
    else if amount != "" then "Interest of " + amount + " was charged."
    else if dt != "" then "Interest was charged on " + dt + "."
    else "Interest was charged."
  }

  /** The trailing-interest sentence when both period bounds are known. */
  function Between(start: string, end: string): string
  {
    "This reflects trailing interest accruing between " + start + " and " + end + "."
  }

  /** The trailing-interest sentence when only one period bound is known. */
  const AfterPrior: string := "This reflects trailing interest that accrued after the prior statement."

  /** Sentence 2: the extracted reason, else the trailing-interest explanation when a period bound is known. */
  function ReasonSentence(reason: string, start: string, end: string): seq<string>
  {
    if reason != "" then [reason]
    else if start != "" || end != "" then
      if start != "" && end != "" then [Between(start, end)]
      else [AfterPrior]
    else []
  }

  /** `[str(x) for x in drivers[:2]]`. */
  function Shown(rd: Renderers, drivers: seq<Value>): seq<string>
  {
    MapSeq((v: Value) => Text(rd, v), Prefix(drivers, 2))
  }

  /** `" and others" if len(drivers) > 2 else ""`. */
  function Tail(drivers: seq<Value>): string
  {
    if |drivers| > 2 then " and others" else ""
  }

  /** At most the first two drivers are shown, and " and others" is added exactly when some are not. */
  lemma TailMarksOmission(rd: Renderers, drivers: seq<Value>)
    ensures |Shown(rd, drivers)| == if |drivers| < 2 then |drivers| else 2
    ensures forall i :: 0 <= i < |Shown(rd, drivers)| ==> Shown(rd, drivers)[i] == Text(rd, drivers[i])
    ensures Tail(drivers) == " and others" <==> |Shown(rd, drivers)| < |drivers|
    ensures Tail(drivers) != " and others" ==> Tail(drivers) == ""
  {
  }

  /** Sentence 3, only when the drivers form a non-empty list. */
  function DriverSentence(rd: Renderers, drivers: seq<Value>): seq<string>
  {
    if drivers != [] then ["Contributing transactions include " + Join(Shown(rd, drivers), ", ") + Tail(drivers) + "."] else []
  }

  /** `data.get("driver_txns") or []`, when it is a list; anything else gives no driver sentence. */
  function Drivers(data: Record): seq<Value>
  {
    var d := Get(data, "driver_txns");
    if d.List? then d.items else []
  }

  /** The sentences of an `interest_reason` answer. */
  function ReasonPieces(data: Record, rd: Renderers, reason: string): seq<string>
  {
    var amount := Money(rd, Get(data, "interest_total"));
    [Headline(amount, PrettyDate(rd, Get(data, "interest_date")))]
    + ReasonSentence(reason, PeriodStart(data, rd), PeriodEnd(data, rd))
    + DriverSentence(rd, Drivers(data))
  }

  /** The period bounds of an explanation, as `pretty_date` writes them. */
  function PeriodStart(data: Record, rd: Renderers): string
  {
    PrettyDate(rd, Get(data, "period_start"))
  }

  function PeriodEnd(data: Record, rd: Renderers): string
  {
    PrettyDate(rd, Get(data, "period_end"))
  }

  /**
   * The headline always comes first and at most two sentences follow it. With
   * drivers the driver sentence is last; without them there are at most two
   * sentences; the headline stands alone exactly when there is no reason, no
   * period bound and no driver.
   */
  lemma ReasonPiecesShape(data: Record, rd: Renderers, reason: string)
    ensures 1 <= |ReasonPieces(data, rd, reason)| <= 3
    ensures StartsWith(ReasonPieces(data, rd, reason)[0], "Interest ")
    ensures Drivers(data) != [] ==>
              ReasonPieces(data, rd, reason)[|ReasonPieces(data, rd, reason)| - 1]
              == "Contributing transactions include " + Join(Shown(rd, Drivers(data)), ", ") + Tail(Drivers(data)) + "."
    ensures Drivers(data) == [] ==> |ReasonPieces(data, rd, reason)| <= 2
    ensures |ReasonPieces(data, rd, reason)| == 1 <==>
      (Drivers(data) == [] && reason == "" && PeriodStart(data, rd) == "" && PeriodEnd(data, rd) == "")
  {
    var h := Headline(Money(rd, Get(data, "interest_total")), PrettyDate(rd, Get(data, "interest_date")));
    assert h[..9] == "Interest ";
  }

  /** The reason text `(data.get("reason_text") or "").strip()`; None when `.strip()` meets a non-string. */
  function ReasonText(data: Record): Option<string>
  {
    var v := Get(data, "reason_text");
    if !Truthy(v) then Some("") else if v.Str? then Some(Strip(v.s)) else None
  }

  /** The `interest_reason` answer; None where Python raises. */
  function ReasonAnswer(data: Record, rd: Renderers): Option<string>
  {
    match ReasonText(data)
    case None => None
    case Some(reason) => Some(Strip(Join(ReasonPieces(data, rd, reason), " ")))
  }

  predicate IsTerminator(c: char)
  {
    c == '.' || c == '!' || c == '?'
  }

  /** `re.split(r"[.!?]", t)[0]`: the text before the first terminator. */
  function FirstSentence(t: string): string
  {
    if t == [] || IsTerminator(t[0]) then [] else [t[0]] + FirstSentence(t[1..])
  }

  /** The first sentence is the longest prefix without a terminator. */
  lemma {:induction false} FirstSentenceSpec(t: string)
    ensures |FirstSentence(t)| <= |t| && FirstSentence(t) == t[..|FirstSentence(t)|]
    ensures forall i :: 0 <= i < |FirstSentence(t)| ==> !IsTerminator(FirstSentence(t)[i])
    ensures |FirstSentence(t)| == |t| || IsTerminator(t[|FirstSentence(t)|])
  {
    if t != [] && !IsTerminator(t[0]) {
      FirstSentenceSpec(t[1..]);
    }
  }

  const NotFound: string := "I couldn't find that."

  /** The generic answer: the first sentence of a string `answer_text`, else `NotFound`. */
  function Fallback(data: Record): string
  {
    var at := Get(data, "answer_text");
    if at.Str? && FirstSentence(Strip(at.s)) != "" then FirstSentence(Strip(at.s)) + "." else NotFound
  }

  /**
   * The generic answer is `NotFound` unless the stripped `answer_text` is a
   * string starting with something other than a terminator; then it is the
   * text up to the first terminator, followed by ".".
   */
  lemma FallbackSpec(data: Record)
    ensures !Get(data, "answer_text").Str? ==> Fallback(data) == NotFound
    ensures Get(data, "answer_text").Str? && (Strip(Get(data, "answer_text").s) == [] || IsTerminator(Strip(Get(data, "answer_text").s)[0]))
      ==> Fallback(data) == NotFound
    ensures Get(data, "answer_text").Str? && Strip(Get(data, "answer_text").s) != [] && !IsTerminator(Strip(Get(data, "answer_text").s)[0])
      ==> exists k :: 0 < k <= |Strip(Get(data, "answer_text").s)|
            && Fallback(data) == Strip(Get(data, "answer_text").s)[..k] + "."
            && (forall i :: 0 <= i < k ==> !IsTerminator(Strip(Get(data, "answer_text").s)[i]))
            && (k == |Strip(Get(data, "answer_text").s)| || IsTerminator(Strip(Get(data, "answer_text").s)[k]))
  {
    var at := Get(data, "answer_text");
    if at.Str? {
      var t := Strip(at.s);
      if t != [] && !IsTerminator(t[0]) {
        FallbackCut(data);
      } else {
        assert FirstSentence(t) == [];
      }
    }
  }

  /** An `answer_text` that starts with something other than a terminator gives its first sentence. */
  lemma FallbackCut(data: Record)
    requires Get(data, "answer_text").Str? && Strip(Get(data, "answer_text").s) != [] && !IsTerminator(Strip(Get(data, "answer_text").s)[0])
    ensures exists k :: (0 < k <= |Strip(Get(data, "answer_text").s)|
                         && Fallback(data) == Strip(Get(data, "answer_text").s)[..k] + "."
                         && (forall i :: 0 <= i < k ==> !IsTerminator(Strip(Get(data, "answer_text").s)[i]))
                         && (k == |Strip(Get(data, "answer_text").s)| || IsTerminator(Strip(Get(data, "answer_text").s)[k])))
  {
    var t := Strip(Get(data, "answer_text").s);
    FirstSentenceSpec(t);
    var k := |FirstSentence(t)|;
    assert forall i :: 0 <= i < k ==> t[i] == FirstSentence(t)[i];
    assert Fallback(data) == t[..k] + ".";
  }

  /** What `format_answer(intent, data)` returns; None where Python raises. */
  function Answer(intent: Intent, data: Record, rd: Renderers): Option<string>
  {
    match intent
    case LastPostedTransaction => Some(PostedAnswer(data, rd, PostedParts(data, rd)))
    case InterestReason => ReasonAnswer(data, rd)
    case _ => if FactAnswer(intent, data, rd).Some? then FactAnswer(intent, data, rd) else Some(Fallback(data))
  }

  /** The `parts` list of the transaction answer, appended detail by detail. */
  method CollectPostedParts(data: Record, rd: Renderers) returns (parts: seq<string>)
    ensures parts == PostedParts(data, rd)
  {
    parts := [];
    if !Get(data, "txn_amount").Null? {
      parts := parts + [Money(rd, Get(data, "txn_amount"))];
    }
    if Truthy(Get(data, "merchant")) {
      parts := parts + [Text(rd, Get(data, "merchant"))];
    }
    if Truthy(Get(data, "txn_type")) {
      parts := parts + [Lower(Text(rd, Get(data, "txn_type")))];
    }
  }

  /** The `pieces` list of an explanation, appended sentence by sentence. */
  method CollectReasonPieces(data: Record, rd: Renderers, reason: string) returns (pieces: seq<string>)
    ensures pieces == ReasonPieces(data, rd, reason)
  {
    var amount := Money(rd, Get(data, "interest_total"));
    var dt := PrettyDate(rd, Get(data, "interest_date"));
    var start, end := PeriodStart(data, rd), PeriodEnd(data, rd);
    var drivers := Drivers(data);
    pieces := [Headline(amount, dt)];
    if reason != "" {
      pieces := pieces + [reason];
    } else if start != "" || end != "" {
      if start != "" && end != "" {
        pieces := pieces + [Between(start, end)];
      } else {
        pieces := pieces + [AfterPrior];
      }
    }
    assert pieces == [Headline(amount, dt)] + ReasonSentence(reason, start, end);
    if drivers != [] {
      pieces := pieces + ["Contributing transactions include " + Join(Shown(rd, drivers), ", ") + Tail(drivers) + "."];
    }
  }

  /**
   * `format_answer`: the one-line facts, the transaction details and the
   * explanation sentences, else the generic answer; None where Python raises.
   */
  method FormatAnswer(intent: Intent, data: Record, rd: Renderers) returns (r: Option<string>)
    ensures r == Answer(intent, data, rd)
  {
    if intent == LastPostedTransaction {
      var parts := CollectPostedParts(data, rd);
      AnswerOfSpecial(data, rd);
      return Some(PostedAnswer(data, rd, parts));
    }
    var fact := FactAnswer(intent, data, rd);
    if fact.Some? {
      AnswerOfSpecial(data, rd);
      AnswerOfFact(intent, data, rd);
      return fact;
    }
    if intent == InterestReason {
      AnswerOfSpecial(data, rd);
      var reason := ReasonText(data);
      if reason.None? {
        return None;
      }
      var pieces := CollectReasonPieces(data, rd, reason.value);
      return Some(Strip(Join(pieces, " ")));
    }
    AnswerOfFact(intent, data, rd);
    return Some(Fallback(data));
  }

  /** The transaction answer mentions each known detail, or says none is available. */
  lemma PostedAnswerSpec(data: Record, rd: Renderers)
    ensures Answer(LastPostedTransaction, data, rd).Some?
    ensures StartsWith(Answer(LastPostedTransaction, data, rd).value, "Your last posted transaction")
    ensures |PostedParts(data, rd)| <= 3
    ensures PostedParts(data, rd) == [] <==> Get(data, "txn_amount").Null? && !Truthy(Get(data, "merchant")) && !Truthy(Get(data, "txn_type"))
    ensures forall i :: 0 <= i < |PostedParts(data, rd)| ==> Contains(Answer(LastPostedTransaction, data, rd).value, PostedParts(data, rd)[i])
  {
    PostedAnswerMentions(data, rd, PostedParts(data, rd));
  }

  /** The transaction sentence keeps its fixed opening and mentions every detail it is given. */
  lemma PostedAnswerMentions(data: Record, rd: Renderers, parts: seq<string>)
    ensures StartsWith(PostedAnswer(data, rd, parts), "Your last posted transaction")
    ensures forall i :: 0 <= i < |parts| ==> Contains(PostedAnswer(data, rd, parts), parts[i])
  {
    var a := PostedAnswer(data, rd, parts);
    var dt := PrettyDate(rd, Get(data, "txn_date"));
    forall i | 0 <= i < |parts| ensures Contains(a, parts[i]) {
      JoinContains(parts, Bullet, i);
      if dt != "" {
        ContainsWithin("Your last posted transaction was on " + dt + ": ", Join(parts, Bullet), ".", parts[i]);
      } else {
        ContainsWithin("Your last posted transaction: ", Join(parts, Bullet), ".", parts[i]);
      }
    }
  }

  /**
   * An explanation starts with its headline and is never empty; it fails
   * only when `reason_text` is a truthy non-string.
   */
  lemma ReasonAnswerSpec(data: Record, rd: Renderers)
    ensures ReasonAnswer(data, rd).None? <==> Truthy(Get(data, "reason_text")) && !Get(data, "reason_text").Str?
    ensures ReasonAnswer(data, rd).Some? ==> ReasonAnswer(data, rd).value != [] && ReasonAnswer(data, rd).value[0] == 'I'
  {
    if ReasonText(data).Some? {
      var pieces := ReasonPieces(data, rd, ReasonText(data).value);
      ReasonPiecesShape(data, rd, ReasonText(data).value);
      var j := Join(pieces, " ");
      assert j[0] == pieces[0][0] == 'I';
      StripKeepsLead(j);
    }
  }

  /**
   * When the data holds none of the fields the prompt asked for, every
   * intent but the two that always answer falls through to the generic answer.
   */
  lemma MissingFieldsFallBack(intent: Intent, data: Record, rd: Renderers)
    requires intent != InterestReason && intent != LastPostedTransaction
    requires forall i :: 0 <= i < |Fields(intent)| ==> Fields(intent)[i] !in data
    ensures Answer(intent, data, rd) == Some(Fallback(data))
  {
    AnswerOfFact(intent, data, rd);
    NoFactWithoutFields(intent, data, rd);
  }

  /** Without the first two fields the prompt asked for, there is no one-line fact answer. */
  lemma NoFactWithoutFields(intent: Intent, data: Record, rd: Renderers)
    requires forall i :: 0 <= i < |Fields(intent)| ==> Fields(intent)[i] !in data
    ensures FactAnswer(intent, data, rd).None?
  {
    assert Fields(intent)[0] !in data;
    assert |Fields(intent)| >= 2 ==> Fields(intent)[1] !in data;
  }

  /** Every answer that is given is non-empty. */
  lemma AnswerNonEmpty(intent: Intent, data: Record, rd: Renderers)
    ensures Answer(intent, data, rd).Some? ==> Answer(intent, data, rd).value != []
  {
    if intent == LastPostedTransaction {
      PostedAnswerNonEmpty(data, rd);
    } else if intent == InterestReason {
      ReasonAnswerSpec(data, rd);
    } else {
      AnswerOfFact(intent, data, rd);
      FactAnswerNonEmpty(intent, data, rd);
      FallbackNonEmpty(data);
    }
  }

  /** The transaction answer is never empty. */
  lemma PostedAnswerNonEmpty(data: Record, rd: Renderers)
    ensures Answer(LastPostedTransaction, data, rd).Some? && Answer(LastPostedTransaction, data, rd).value != []
  {
  }

  /** The two intents that never fall through: the transaction answer, and the explanation when there is a reason. */
  lemma AnswerOfSpecial(data: Record, rd: Renderers)
    ensures Answer(LastPostedTransaction, data, rd) == Some(PostedAnswer(data, rd, PostedParts(data, rd)))
    ensures FactAnswer(InterestReason, data, rd).None?
    ensures ReasonText(data).None? ==> Answer(InterestReason, data, rd).None?
    ensures ReasonText(data).Some? ==>
      Answer(InterestReason, data, rd) == Some(Strip(Join(ReasonPieces(data, rd, ReasonText(data).value), " ")))
  {
  }

  /** Every intent but the two that always answer gives its fact answer, else the generic one. */
  lemma AnswerOfFact(intent: Intent, data: Record, rd: Renderers)
    requires intent != InterestReason && intent != LastPostedTransaction
    ensures Answer(intent, data, rd) == if FactAnswer(intent, data, rd).Some? then FactAnswer(intent, data, rd) else Some(Fallback(data))
  {
  }

  /** A one-line fact answer, when there is one, is not empty. */
  lemma FactAnswerNonEmpty(intent: Intent, data: Record, rd: Renderers)
    ensures FactAnswer(intent, data, rd).Some? ==> FactAnswer(intent, data, rd).value != []
  {
  }

  /** The generic answer is never empty. */
  lemma FallbackNonEmpty(data: Record)
    ensures Fallback(data) != []
  {
  }
}
