/**
 * Shared vocabulary of the model: Python values as they travel through records
 * and metadata dictionaries, Python truthiness, string helpers and UTC timestamps.
 */
module Common {

  datatype Option<T> = None | Some(value: T)

  /** `float(s)` on a string: `None` when Python raises. */
  type FloatParser = string -> Option<real>

  /** A JSON-like Python value, as found in records, chunk metadata and judge replies. */
  datatype Value =
    | Null
    | Bool(b: bool)
    | Int(i: int)
    | Real(r: real)
    | Str(s: string)
    | List(items: seq<Value>)
    | Obj(fields: map<string, Value>)

  /** A Python dict with string keys: a record, or the metadata of a chunk or node. */
  type Record = map<string, Value>

  /** Python truthiness: None, False, zero and empty containers are false. */
  predicate Truthy(v: Value)
  {
    match v
    case Null => false
    case Bool(b) => b
    case Int(i) => i != 0
    case Real(r) => r != 0.0
    case Str(s) => s != ""
    case List(xs) => xs != []
    case Obj(m) => m != map[]
  }

  /** `d.get(k)`: a missing key reads as None. */
  function Get(d: Record, k: string): Value
  {
    if k in d then d[k] else Null
  }

  /** Python `a or b`: the first operand when it is truthy, else the second. */
  function Or(a: Value, b: Value): (r: Value)
    ensures Truthy(a) ==> r == a
    ensures !Truthy(a) ==> r == b
  {
    if Truthy(a) then a else b
  }

  /** The text of a value the record models declare as a string; other values read as "". */
  function StrOf(v: Value): string
  {
    if v.Str? then v.s else ""
  }

  /** Python's `v0 or v1 or ... or vn`: the first truthy operand, else the last one. */
  function OrAll(vs: seq<Value>): (r: Value)
    requires vs != []
  {
    if |vs| == 1 then vs[0] else Or(vs[0], OrAll(vs[1..]))
  }

  /** `OrAll` picks the first truthy operand when there is one, and the last operand otherwise. */
  lemma {:induction false} OrAllPicks(vs: seq<Value>)
    requires vs != []
    ensures forall i :: 0 <= i < |vs| && Truthy(vs[i]) && (forall j :: 0 <= j < i ==> !Truthy(vs[j])) ==> OrAll(vs) == vs[i]
    ensures (forall i :: 0 <= i < |vs| ==> !Truthy(vs[i])) ==> OrAll(vs) == vs[|vs| - 1]
  {
    if |vs| > 1 {
      OrAllPicks(vs[1..]);
      forall i | 0 <= i < |vs| && Truthy(vs[i]) && (forall j :: 0 <= j < i ==> !Truthy(vs[j]))
        ensures OrAll(vs) == vs[i]
      {
        if i > 0 {
          assert !Truthy(vs[0]);
          assert vs[1..][i - 1] == vs[i];
          assert forall j :: 0 <= j < i - 1 ==> !Truthy(vs[1..][j]) by {
            forall j | 0 <= j < i - 1 ensures !Truthy(vs[1..][j]) {
              assert vs[1..][j] == vs[j + 1];
            }
          }
        }
      }
      if forall i :: 0 <= i < |vs| ==> !Truthy(vs[i]) {
        assert !Truthy(vs[0]);
        assert forall j :: 0 <= j < |vs| - 1 ==> !Truthy(vs[1..][j]) by {
          forall j | 0 <= j < |vs| - 1 ensures !Truthy(vs[1..][j]) {
            assert vs[1..][j] == vs[j + 1];
          }
        }
      }
    }
  }

  /** `a or b or c`. */
  lemma OrAll3(a: Value, b: Value, c: Value)
    ensures OrAll([a, b, c]) == Or(a, Or(b, c))
  {
    assert OrAll([c]) == c;
    assert [b, c][1..] == [c];
    assert OrAll([b, c]) == Or(b, c);
    assert [a, b, c][1..] == [b, c];
  }

  /** The first truthy value, or None: a helper that loops until a value is truthy. */
  function First(vs: seq<Value>): (r: Value)
  {
    if vs == [] then Null else if Truthy(vs[0]) then vs[0] else First(vs[1..])
  }

  /** `First` and `or` agree whenever some operand is truthy; otherwise `First` gives None. */
  lemma {:induction false} FirstIsOr(vs: seq<Value>)
    requires vs != []
    ensures First(vs) == if Truthy(OrAll(vs)) then OrAll(vs) else Null
  {
    if |vs| > 1 && !Truthy(vs[0]) {
      FirstIsOr(vs[1..]);
    }
  }

  /** Maps `f` over `xs`. */
  function MapSeq<A, B>(f: A -> B, xs: seq<A>): (r: seq<B>)
    ensures |r| == |xs| && forall i :: 0 <= i < |xs| ==> r[i] == f(xs[i])
  {
    if xs == [] then [] else [f(xs[0])] + MapSeq(f, xs[1..])
  }

  /** One more element mapped. */
  lemma MapSeqSnoc<A, B>(f: A -> B, xs: seq<A>, i: nat)
    requires i < |xs|
    ensures MapSeq(f, xs[..i + 1]) == MapSeq(f, xs[..i]) + [f(xs[i])]
  {
  }

  /** `[x for x in xs if p(x)]`. */
  function Filter<T>(xs: seq<T>, p: T -> bool): (r: seq<T>)
    ensures |r| <= |xs|
    ensures forall i :: 0 <= i < |r| ==> p(r[i])
  {
    if xs == [] then [] else (if p(xs[0]) then [xs[0]] else []) + Filter(xs[1..], p)
  }

  /** Filtering one more element at the end: the loop form `for x in xs: if p(x): out.append(x)`. */
  lemma {:induction false} FilterSnoc<T>(xs: seq<T>, x: T, p: T -> bool)
    ensures Filter(xs + [x], p) == Filter(xs, p) + (if p(x) then [x] else [])
  {
    if xs == [] {
      assert [] + [x] == [x];
    } else {
      assert (xs + [x])[1..] == xs[1..] + [x];
      FilterSnoc(xs[1..], x, p);
    }
  }

  /** `r` is `xs` with some elements left out, the rest in their original order. */
  predicate IsSubseq<T(==)>(r: seq<T>, xs: seq<T>)
    decreases |xs|
  {
    if r == [] then true
    else if xs == [] then false
    else (r[0] == xs[0] && IsSubseq(r[1..], xs[1..])) || IsSubseq(r, xs[1..])
  }

  /** `Filter` keeps the order and exactly the elements that pass. */
  lemma {:induction false} FilterSpec<T>(xs: seq<T>, p: T -> bool)
    ensures IsSubseq(Filter(xs, p), xs)
    ensures forall x :: x in Filter(xs, p) <==> x in xs && p(x)
  {
    if xs != [] {
      FilterSpec(xs[1..], p);
      var rest := Filter(xs[1..], p);
      if p(xs[0]) {
        assert ([xs[0]] + rest)[1..] == rest;
      } else {
        assert [] + rest == rest;
        assert !IsSubseq(rest, xs[1..]) ==> rest == [];
      }
      assert xs == [xs[0]] + xs[1..];
    }
  }

  /** Python `s[:k]`, including a negative `k`, which drops `-k` elements from the end. */
  function Prefix<T>(s: seq<T>, k: int): (r: seq<T>)
    ensures |r| <= |s| && r == s[..|r|]
    ensures 0 <= k ==> |r| == if k < |s| then k else |s|
  {
    if 0 <= k then (if k < |s| then s[..k] else s)
    else if |s| + k <= 0 then [] else s[..|s| + k]
  }

  // ---------------------------------------------------------------------------
  // Characters and strings (ASCII case mapping; Python's whitespace set)
  // ---------------------------------------------------------------------------

  /** The characters for which Python's `str.isspace()` holds; `\s` in a str pattern is the same set. */
  predicate IsSpace(c: char)
  {
    ('\t' <= c <= '\r') || ('\U{1C}' <= c <= '\U{1F}') || c == ' ' || c == '\U{85}' || c == '\U{A0}'
    || c == '\U{1680}' || ('\U{2000}' <= c <= '\U{200A}') || c == '\U{2028}' || c == '\U{2029}'
    || c == '\U{202F}' || c == '\U{205F}' || c == '\U{3000}'
  }

  predicate IsDigit(c: char) { '0' <= c <= '9' }

  predicate IsAsciiLetter(c: char) { ('a' <= c <= 'z') || ('A' <= c <= 'Z') }

  function LowerChar(c: char): char
  {
    if 'A' <= c <= 'Z' then (c as int + 32) as char else c
  }

  function UpperChar(c: char): char
  {
    if 'a' <= c <= 'z' then (c as int - 32) as char else c
  }

  /** `s.lower()` on ASCII letters. */
  function Lower(s: string): (r: string)
    ensures |r| == |s|
    ensures forall i :: 0 <= i < |s| ==> r[i] == LowerChar(s[i])
  {
    if s == [] then [] else [LowerChar(s[0])] + Lower(s[1..])
  }

  /** `s.upper()` on ASCII letters. */
  function Upper(s: string): (r: string)
    ensures |r| == |s|
    ensures forall i :: 0 <= i < |s| ==> r[i] == UpperChar(s[i])
  {
    if s == [] then [] else [UpperChar(s[0])] + Upper(s[1..])
  }

  /** Lower-casing ignores the case the text was in: `s.lower().lower()` and `s.upper().lower()` are `s.lower()`. */
  lemma LowerFolds(s: string)
    ensures Lower(Lower(s)) == Lower(s)
    ensures Lower(Upper(s)) == Lower(s)
  {
    forall i | 0 <= i < |s| ensures LowerChar(LowerChar(s[i])) == LowerChar(s[i]) && LowerChar(UpperChar(s[i])) == LowerChar(s[i]) {
    }
  }

  /** Upper-casing forgets an earlier lower-casing. */
  lemma UpperFolds(s: string)
    ensures Upper(Lower(s)) == Upper(s)
  {
    forall i | 0 <= i < |s| ensures UpperChar(LowerChar(s[i])) == UpperChar(s[i]) {
    }
  }

  /** Text without upper-case ASCII letters is its own lower case. */
  lemma LowerFixed(s: string)
    requires forall i :: 0 <= i < |s| ==> !('A' <= s[i] <= 'Z')
    ensures Lower(s) == s
  {
  }

  /** Text without lower-case ASCII letters is its own upper case. */
  lemma UpperFixed(s: string)
    requires forall i :: 0 <= i < |s| ==> !('a' <= s[i] <= 'z')
    ensures Upper(s) == s
  {
  }

  predicate StartsWith(s: string, p: string)
  {
    |p| <= |s| && s[..|p|] == p
  }

  /** `p` occurs in `s` starting at index `i`. */
  predicate OccursAt(s: string, p: string, i: int)
  {
    0 <= i && i + |p| <= |s| && s[i..i + |p|] == p
  }

  /** Python's `p in s`. */
  predicate Contains(s: string, p: string)
  {
    exists i | 0 <= i <= |s| - |p| :: OccursAt(s, p, i)
  }

  /** A string shorter than `p` cannot contain it. */
  lemma ContainsShort(s: string, p: string)
    requires |s| < |p|
    ensures !Contains(s, p)
  {
  }

  /** Whatever contains `a + p + b` contains `p`. */
  lemma ContainsInfix(s: string, a: string, p: string, b: string)
    requires Contains(s, a + p + b)
    ensures Contains(s, p)
  {
    var i :| 0 <= i <= |s| - |a + p + b| && OccursAt(s, a + p + b, i);
    var w := s[i..i + |a + p + b|];
    assert w == a + p + b;
    forall j | 0 <= j < |p| ensures s[i + |a| + j] == p[j] {
      assert s[i + |a| + j] == w[|a| + j] == (a + p + b)[|a| + j];
    }
    assert s[i + |a|..i + |a| + |p|] == p;
    assert OccursAt(s, p, i + |a|);
  }

  /** Text after a string that contains `p` still contains it. */
  lemma ContainsExtend(s: string, t: string, p: string)
    requires Contains(s, p)
    ensures Contains(s + t, p)
  {
    var i :| 0 <= i <= |s| - |p| && OccursAt(s, p, i);
    assert (s + t)[i..i + |p|] == s[i..i + |p|];
    assert OccursAt(s + t, p, i);
  }

  /** Text around a string that contains `p` still contains it. */
  lemma ContainsWithin(a: string, x: string, b: string, p: string)
    requires Contains(x, p)
    ensures Contains(a + x + b, p)
  {
    var i :| 0 <= i <= |x| - |p| && OccursAt(x, p, i);
    assert (a + x + b)[|a| + i..|a| + i + |p|] == x[i..i + |p|];
    assert OccursAt(a + x + b, p, |a| + i);
  }

  /** A string contains itself. */
  lemma ContainsSelf(p: string)
    ensures Contains(p, p)
  {
    assert OccursAt(p, p, 0);
  }

  /** `s.lstrip()`. */
  function LStrip(s: string): (r: string)
    ensures |r| <= |s| && r == s[|s| - |r|..]
    ensures r == [] || !IsSpace(r[0])
    ensures s != [] && IsSpace(s[0]) ==> |r| < |s|
  {
    if s != [] && IsSpace(s[0]) then LStrip(s[1..]) else s
  }

  /** What `lstrip` removes is whitespace. */
  lemma {:induction false} LStripDropsSpaces(s: string)
    ensures forall i :: 0 <= i < |s| - |LStrip(s)| ==> IsSpace(s[i])
  {
    if s != [] && IsSpace(s[0]) {
      LStripDropsSpaces(s[1..]);
    }
  }

  /** `s.rstrip()`. */
  function RStrip(s: string): (r: string)
    ensures |r| <= |s| && r == s[..|r|]
    ensures r == [] || !IsSpace(r[|r| - 1])
  {
    if s != [] && IsSpace(s[|s| - 1]) then RStrip(s[..|s| - 1]) else s
  }

  /** What `rstrip` removes is whitespace. */
  lemma {:induction false} RStripDropsSpaces(s: string)
    ensures forall i :: |RStrip(s)| <= i < |s| ==> IsSpace(s[i])
  {
    if s != [] && IsSpace(s[|s| - 1]) {
      RStripDropsSpaces(s[..|s| - 1]);
    }
  }

  /** `s.strip()`. */
  function Strip(s: string): (r: string)
    ensures r == [] || (!IsSpace(r[0]) && !IsSpace(r[|r| - 1]))
  {
    RStrip(LStrip(s))
  }

  /** Stripping text that is all whitespace leaves nothing. */
  lemma {:induction false} StripAllSpace(s: string)
    requires forall i :: 0 <= i < |s| ==> IsSpace(s[i])
    ensures LStrip(s) == [] && Strip(s) == []
  {
    if s != [] {
      StripAllSpace(s[1..]);
    }
  }

  /** Lower-casing leaves whitespace alone, so it commutes with `lstrip`. */
  lemma {:induction false} LowerLStrip(s: string)
    ensures Lower(LStrip(s)) == LStrip(Lower(s))
  {
    if s != [] {
      var l := Lower(s);
      LowerCharSpace(s[0]);
      if IsSpace(s[0]) {
        LowerLStrip(s[1..]);
        assert l[1..] == Lower(s[1..]);
        assert LStrip(l) == LStrip(l[1..]);
      } else {
        assert LStrip(s) == s;
        assert LStrip(l) == l;
      }
    }
  }

  /** Lower-casing leaves whitespace alone, so it commutes with `rstrip`. */
  lemma {:induction false} LowerRStrip(s: string)
    ensures Lower(RStrip(s)) == RStrip(Lower(s))
  {
    if s != [] {
      var l := Lower(s);
      LowerCharSpace(s[|s| - 1]);
      if IsSpace(s[|s| - 1]) {
        LowerRStrip(s[..|s| - 1]);
        assert l[..|l| - 1] == Lower(s[..|s| - 1]);
        assert RStrip(l) == RStrip(l[..|l| - 1]);
      } else {
        assert RStrip(s) == s;
        assert RStrip(l) == l;
      }
    }
  }

  /** Lower-casing a character keeps whitespace as it is and makes nothing whitespace. */
  lemma LowerCharSpace(c: char)
    ensures IsSpace(LowerChar(c)) == IsSpace(c)
    ensures IsSpace(c) ==> LowerChar(c) == c
  {
    if 'A' <= c <= 'Z' {
      assert 'a' <= LowerChar(c) <= 'z';
    }
  }

  /** `s.strip().lower()` and `s.lower().strip()` agree. */
  lemma LowerStrip(s: string)
    ensures Lower(Strip(s)) == Strip(Lower(s))
  {
    LowerLStrip(s);
    LowerRStrip(LStrip(s));
  }

  /** Stripping twice is stripping once. */
  lemma StripIdempotent(s: string)
    ensures Strip(Strip(s)) == Strip(s)
  {
    var t := LStrip(s);
    var u := RStrip(t);
    assert u == [] || u[0] == t[0];
    assert LStrip(u) == u;
  }

  /** Text that starts with a non-space character keeps some text when stripped. */
  lemma {:induction false} StripKeepsLead(s: string)
    requires s != [] && !IsSpace(s[0])
    ensures Strip(s) != [] && Strip(s)[0] == s[0]
  {
    assert LStrip(s) == s;
    RStripKeepsLead(s);
  }

  lemma {:induction false} RStripKeepsLead(s: string)
    requires s != [] && !IsSpace(s[0])
    ensures RStrip(s) != [] && RStrip(s)[0] == s[0]
  {
    if |s| > 1 && IsSpace(s[|s| - 1]) {
      RStripKeepsLead(s[..|s| - 1]);
    }
  }

  /** `sep.join(parts)`. */
  function Join(parts: seq<string>, sep: string): string
  {
    if parts == [] then "" else if |parts| == 1 then parts[0] else parts[0] + (sep + Join(parts[1..], sep))
  }

  /** Each part of a join occurs in the joined text. */
  lemma {:induction false} JoinContains(parts: seq<string>, sep: string, i: nat)
    requires i < |parts|
    ensures Contains(Join(parts, sep), parts[i])
  {
    if |parts| == 1 {
      ContainsSelf(parts[0]);
      assert Join(parts, sep) == "" + parts[0] + "";
      ContainsWithin("", parts[0], "", parts[0]);
    } else if i == 0 {
      ContainsSelf(parts[0]);
      ContainsWithin("", parts[0], sep + Join(parts[1..], sep), parts[0]);
      assert "" + parts[0] + (sep + Join(parts[1..], sep)) == Join(parts, sep);
    } else {
      JoinContains(parts[1..], sep, i - 1);
      ContainsWithin(parts[0] + sep, Join(parts[1..], sep), "", parts[i]);
      assert parts[0] + sep + Join(parts[1..], sep) + "" == Join(parts, sep);
    }
  }

  /** A non-empty sequence is its head followed by its tail. */
  lemma HeadTail<T>(s: seq<T>)
    requires s != []
    ensures s == [s[0]] + s[1..]
  {
  }

  /** Decimal digits of a natural number, as `str(n)` writes them. */
  function NatStr(n: nat): (r: string)
    ensures r != [] && forall i :: 0 <= i < |r| ==> IsDigit(r[i])
  {
    if n < 10 then [('0' as int + n) as char] else NatStr(n / 10) + [('0' as int + n % 10) as char]
  }

  /** `str(n)` for any integer. */
  function IntStr(n: int): string
  {
    if n < 0 then "-" + NatStr(-n) else NatStr(n)
  }

  /** `f"{n:0{w}d}"` for a natural number: left-padded with zeros to at least `w` digits. */
  function PadNat(n: nat, w: nat): (r: string)
    ensures |r| >= w && forall i :: 0 <= i < |r| ==> IsDigit(r[i])
    decreases w
  {
    var d := NatStr(n);
    if |d| >= w then d else "0" + PadNat(n, w - 1)
  }

  /** The value of a string of decimal digits. */
  function DecVal(s: string): nat
    requires forall i :: 0 <= i < |s| ==> IsDigit(s[i])
  {
    if s == [] then 0
    else
      var last := s[|s| - 1];
      assert IsDigit(last);
      DecVal(s[..|s| - 1]) * 10 + (last as int - '0' as int)
  }

  function Pow10(k: nat): (r: nat)
    ensures r >= 1
  {
    if k == 0 then 1 else 10 * Pow10(k - 1)
  }

  /** Reading back the digits `str` writes gives the number. */
  lemma {:induction false} NatStrValue(n: nat)
    ensures DecVal(NatStr(n)) == n
  {
    if n >= 10 {
      NatStrValue(n / 10);
      var d := NatStr(n / 10);
      var r := d + [('0' as int + n % 10) as char];
      assert r[..|r| - 1] == d;
    }
  }

  /** A number below `10^k` (k >= 1) has at most `k` digits. */
  lemma {:induction false} NatStrLength(n: nat, k: nat)
    requires 1 <= k && n < Pow10(k)
    ensures |NatStr(n)| <= k
  {
    if n >= 10 {
      NatStrLength(n / 10, k - 1);
    }
  }

  /** Leading zeros do not change the value. */
  lemma {:induction false} DecValZero(s: string)
    requires forall i :: 0 <= i < |s| ==> IsDigit(s[i])
    ensures DecVal("0" + s) == DecVal(s)
  {
    if s != [] {
      var z := "0" + s;
      assert z[..|z| - 1] == "0" + s[..|s| - 1];
      DecValZero(s[..|s| - 1]);
    }
  }

  /** Zero padding keeps the value and gives exactly `w` digits when the number fits. */
  lemma {:induction false} PadNatValue(n: nat, w: nat)
    ensures DecVal(PadNat(n, w)) == n
    ensures |NatStr(n)| <= w ==> |PadNat(n, w)| == w
    decreases w
  {
    if |NatStr(n)| >= w {
      NatStrValue(n);
    } else {
      PadNatValue(n, w - 1);
      DecValZero(PadNat(n, w - 1));
    }
  }

  // ---------------------------------------------------------------------------
  // Timestamps
  // ---------------------------------------------------------------------------

  /** `float(v)`: numbers and booleans convert, text goes through the parser, anything else raises (`None`). */
  function ToFloat(parse: FloatParser, v: Value): (r: Option<real>)
    ensures v.Int? ==> r == Some(v.i as real)
    ensures v.Real? ==> r == Some(v.r)
    ensures v.Str? ==> r == parse(v.s)
    ensures v.Null? || v.List? || v.Obj? ==> r.None?
  {
    match v
    case Int(i) => Some(i as real)
    case Real(x) => Some(x)
    case Bool(b) => Some(if b then 1.0 else 0.0)
    case Str(s) => parse(s)
    case _ => None
  }

  /**
   * Calendar fields of a moment as a `Parser` gives them. Each use says which
   * Python parse its parser stands for: plain `fromisoformat` keeps the text's
   * own wall-clock fields, while `fromisoformat(...).astimezone(timezone.utc)`
   * gives the UTC fields.
   */
  datatype DateTime = DateTime(year: int, month: int, day: int, hour: int, minute: int, second: int, micro: int)
  {
    /** The ranges Python's `datetime` enforces. */
    predicate Valid()
    {
      1 <= year <= 9999 && 1 <= month <= 12 && 1 <= day <= 31
      && 0 <= hour < 24 && 0 <= minute < 60 && 0 <= second < 60 && 0 <= micro < 1000000
    }
  }

  type Timestamp = d: DateTime | d.Valid() witness DateTime(1970, 1, 1, 0, 0, 0, 0)

  /** A partial parser from ISO-8601 text to a timestamp's fields (None where Python raises). */
  type Parser = string -> Option<Timestamp>

  /** Chronological order of two timestamps: lexicographic on the fields. */
  predicate Le(a: DateTime, b: DateTime)
  {
    if a.year != b.year then a.year < b.year
    else if a.month != b.month then a.month < b.month
    else if a.day != b.day then a.day < b.day
    else if a.hour != b.hour then a.hour < b.hour
    else if a.minute != b.minute then a.minute < b.minute
    else if a.second != b.second then a.second < b.second
    else a.micro <= b.micro
  }

  predicate Lt(a: DateTime, b: DateTime) { Le(a, b) && a != b }

  lemma LeTotal(a: DateTime, b: DateTime)
    ensures Le(a, b) || Le(b, a)
    ensures Le(a, b) && Le(b, a) ==> a == b
  {
  }

  lemma LeTransitive(a: DateTime, b: DateTime, c: DateTime)
    requires Le(a, b) && Le(b, c)
    ensures Le(a, c)
  {
  }

  /** `f"{dt.year:04d}-{dt.month:02d}"`: the year-month bucket of a moment. */
  function YmOf(dt: Timestamp): string
  {
    PadNat(dt.year, 4) + "-" + PadNat(dt.month, 2)
  }

  /** A bucket is seven characters, `YYYY-MM`, and reading its digits back gives the year and month. */
  lemma YmOfShape(dt: Timestamp)
    ensures var r := YmOf(dt);
      |r| == 7 && r[4] == '-'
      && (forall i :: 0 <= i < 7 && i != 4 ==> IsDigit(r[i]))
      && DecVal(r[..4]) == dt.year && DecVal(r[5..]) == dt.month
  {
    NatStrLength(dt.year, 4);
    NatStrLength(dt.month, 2);
    PadNatValue(dt.year, 4);
    PadNatValue(dt.month, 2);
    var r := YmOf(dt);
    assert r[..4] == PadNat(dt.year, 4);
    assert r[5..] == PadNat(dt.month, 2);
  }

  /** Two moments share a bucket exactly when they share year and month. */
  lemma YmOfInjective(a: Timestamp, b: Timestamp)
    ensures YmOf(a) == YmOf(b) <==> a.year == b.year && a.month == b.month
  {
    YmOfShape(a);
    YmOfShape(b);
  }

  /** A chunk of the retrieval corpus (`backend/rag/types.py`). */
  datatype Chunk = Chunk(text: string, source: string, meta: Record)

  datatype Result<T> = Ok(value: T) | Err(msg: string)

  /** A scored search hit: `id` is the corpus position that identifies the chunk or node. */
  datatype Hit<T> = Hit(id: nat, item: T, score: real)
}
