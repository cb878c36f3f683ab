/**
 * Values and string helpers shared by the backend model: Option and Result,
 * decoded JSON values with Python truthiness and Python's `in` operator,
 * ASCII case mapping, Python's whitespace set, and decimal integers as
 * Python's `int()` reads them and `str()` writes them.
 */
module Common {

  datatype Option<+T> = None | Some(value: T)

  datatype Result<+T, +E> = Ok(value: T) | Err(error: E)

  /** A value as Python's json module decodes it. Numbers are integers only. */
  datatype Json =
    | JNull
    | JBool(b: bool)
    | JNum(n: int)
    | JStr(s: string)
    | JList(items: seq<Json>)
    | JObject(fields: map<string, Json>)

  /** Python truthiness of a decoded value: None, False, 0, "", [] and {} are false. */
  predicate Truthy(j: Json) {
    match j
    case JNull => false
    case JBool(b) => b
    case JNum(n) => n != 0
    case JStr(s) => s != ""
    case JList(xs) => xs != []
    case JObject(m) => m != map[]
  }

  /** `d.get(key)`: the value under `key`, or None (JNull) when it is absent. */
  function Get(d: map<string, Json>, key: string): Json {
    if key in d then d[key] else JNull
  }

  /** Python's `key in v` for a decoded value; None where Python raises TypeError (numbers, booleans, None). */
  function PyIn(key: string, v: Json): Option<bool> {
    match v
    case JObject(m) => Some(key in m)
    case JList(xs) => Some(JStr(key) in xs)
    case JStr(s) => Some(Contains(s, key))
    case _ => None
  }

  /** Python's `str(v)` for scalar values; containers are not rendered by this model. */
  function Display(v: Json): string {
    match v
    case JNull => "None"
    case JBool(b) => if b then "True" else "False"
    case JNum(n) => Show(n)
    case JStr(s) => s
    case _ => ""
  }

  lemma AppendAssoc<T>(a: seq<T>, b: seq<T>, c: seq<T>)
    ensures (a + b) + c == a + (b + c)
  {
  }

  predicate StartsWith(s: string, prefix: string) {
    |prefix| <= |s| && s[..|prefix|] == prefix
  }

  /** Python's `sub in s` for strings. */
  predicate Contains(s: string, sub: string)
    decreases |s|
  {
    StartsWith(s, sub) || (|s| > 0 && Contains(s[1..], sub))
  }

  /** The first index of `c` in `s`, or |s| when `c` does not occur. */
  function IndexOf(s: string, c: char): (k: nat)
    ensures k <= |s|
    ensures k < |s| ==> s[k] == c
    ensures forall i :: 0 <= i < k ==> s[i] != c
  {
    if |s| == 0 || s[0] == c then 0 else 1 + IndexOf(s[1..], c)
  }

  /** The last index of `c` in `s`, or -1 when `c` does not occur (`str.rfind`). */
  function LastIndexOf(s: string, c: char): (k: int)
    ensures -1 <= k < |s|
    ensures k >= 0 ==> s[k] == c
    ensures forall i :: k < i < |s| ==> s[i] != c
  {
    if |s| == 0 then -1
    else if s[|s| - 1] == c then |s| - 1
    else LastIndexOf(s[..|s| - 1], c)
  }

  lemma {:induction false} IndexOfAfter(a: string, b: string, c: char)
    requires c !in a
    ensures IndexOf(a + b, c) == |a| + IndexOf(b, c)
  {
    if a != [] {
      assert (a + b)[0] == a[0] != c;
      assert (a + b)[1..] == a[1..] + b;
      IndexOfAfter(a[1..], b, c);
    } else {
      assert a + b == b;
    }
  }

  function LowerChar(c: char): char {
    if 'A' <= c <= 'Z' then (c as int + 32) as char else c
  }

  function UpperChar(c: char): char {
    if 'a' <= c <= 'z' then (c as int - 32) as char else c
  }

  /** `str.lower()` on ASCII letters; other characters are kept. */
  function Lower(s: string): (r: string)
    ensures |r| == |s| && forall i :: 0 <= i < |s| ==> r[i] == LowerChar(s[i])
  {
    seq(|s|, i requires 0 <= i < |s| => LowerChar(s[i]))
  }

  /** `str.upper()` on ASCII letters; other characters are kept. */
  function Upper(s: string): (r: string)
    ensures |r| == |s| && forall i :: 0 <= i < |s| ==> r[i] == UpperChar(s[i])
  {
    seq(|s|, i requires 0 <= i < |s| => UpperChar(s[i]))
  }

  /** Every character `str.isspace()` accepts. */
  predicate IsSpace(c: char) {
    ('\t' <= c <= '\r') || ('\U{1C}' <= c <= ' ') || c == '\U{85}' || c == '\U{A0}'
    || c == '\U{1680}' || ('\U{2000}' <= c <= '\U{200A}') || c == '\U{2028}' || c == '\U{2029}'
    || c == '\U{202F}' || c == '\U{205F}' || c == '\U{3000}'
  }

  function LStripSpace(s: string): (r: string)
    ensures |r| <= |s| && r == s[|s| - |r|..]
    ensures r == [] || !IsSpace(r[0])
  {
    if |s| > 0 && IsSpace(s[0]) then LStripSpace(s[1..]) else s
  }

  function RStripSpace(s: string): (r: string)
    ensures |r| <= |s| && r == s[..|r|]
    ensures r == [] || !IsSpace(r[|r| - 1])
  {
    if |s| > 0 && IsSpace(s[|s| - 1]) then RStripSpace(s[..|s| - 1]) else s
  }

  /** `str.strip()` with no argument. */
  function Strip(s: string): string {
    RStripSpace(LStripSpace(s))
  }

  /** `s.lstrip(c)` for a single character. */
  function LStripChar(s: string, c: char): (r: string)
    ensures |r| <= |s| && r == s[|s| - |r|..]
    ensures r == [] || r[0] != c
  {
    if |s| > 0 && s[0] == c then LStripChar(s[1..], c) else s
  }

  /** `s.rstrip(c)` for a single character. */
  function RStripChar(s: string, c: char): (r: string)
    ensures |r| <= |s| && r == s[..|r|]
    ensures r == [] || r[|r| - 1] != c
  {
    if |s| > 0 && s[|s| - 1] == c then RStripChar(s[..|s| - 1], c) else s
  }

  /** `s.replace(a, b)` for single characters. */
  function ReplaceChar(s: string, a: char, b: char): (r: string)
    ensures |r| == |s|
    ensures forall i :: 0 <= i < |s| ==> r[i] == (if s[i] == a then b else s[i])
  {
    seq(|s|, i requires 0 <= i < |s| => if s[i] == a then b else s[i])
  }

  function CountChar(s: string, c: char): nat {
    if s == [] then 0 else (if s[0] == c then 1 else 0) + CountChar(s[1..], c)
  }

  /** `s.split(c)` for a single-character separator: the pieces between the separators, in order. */
  function Split(s: string, c: char): (parts: seq<string>)
    ensures |parts| > 0
    ensures forall i :: 0 <= i < |parts| ==> c !in parts[i]
    decreases |s|
  {
    var k := IndexOf(s, c);
    if k == |s| then [s] else [s[..k]] + Split(s[k + 1..], c)
  }

  /** Splitting `a + [c] + b` where neither side holds `c` gives exactly the two sides. */
  lemma SplitTwo(a: string, b: string, c: char)
    requires c !in a && c !in b
    ensures Split(a + [c] + b, c) == [a, b]
  {
    var s := a + [c] + b;
    IndexOfAfter(a, [c] + b, c);
    assert s == a + ([c] + b);
    assert s[..|a|] == a;
    assert s[|a| + 1..] == b;
    assert IndexOf(b, c) == |b|;
  }

  /** The first piece is everything before the first separator; the rest is split on its own. */
  lemma SplitHead(a: string, rest: string, c: char)
    requires c !in a
    ensures Split(a + [c] + rest, c) == [a] + Split(rest, c)
  {
    var s := a + [c] + rest;
    IndexOfAfter(a, [c] + rest, c);
    assert s == a + ([c] + rest);
    assert s[..|a|] == a;
    assert s[|a| + 1..] == rest;
  }

  /** A string without the separator is a single piece. */
  lemma SplitNone(s: string, c: char)
    requires c !in s
    ensures Split(s, c) == [s]
  {
  }

  // ---------------------------------------------------------------------
  // Decimal integers
  // ---------------------------------------------------------------------

  predicate IsDigit(c: char) { '0' <= c <= '9' }

  function DigitChar(d: nat): char
    requires d < 10
  {
    "0123456789"[d]
  }

  /** The digits of a natural number, most significant first, without leading zeros. */
  function ShowNat(n: nat): (r: string)
    ensures |r| > 0 && forall i :: 0 <= i < |r| ==> IsDigit(r[i])
  {
    if n < 10 then [DigitChar(n)] else ShowNat(n / 10) + [DigitChar(n % 10)]
  }

  /** Appending a digit to a positive number appends its character to the decimal text. */
  lemma ShowNatStep(n: nat, d: nat)
    requires n > 0 && d < 10
    ensures ShowNat(10 * n + d) == ShowNat(n) + [DigitChar(d)]
  {
    var k := 10 * n + d;
    assert k / 10 == n && k % 10 == d;
  }

  /** The decimal text of a four-digit number. */
  lemma ShowFourDigits(a: nat, b: nat, c: nat, d: nat)
    requires 0 < a < 10 && b < 10 && c < 10 && d < 10
    ensures Show(1000 * a + 100 * b + 10 * c + d) == [DigitChar(a), DigitChar(b), DigitChar(c), DigitChar(d)]
  {
    assert ShowNat(a) == [DigitChar(a)];
    ShowNatStep(a, b);
    ShowNatStep(10 * a + b, c);
    ShowNatStep(100 * a + 10 * b + c, d);
  }

  /** Python's `str(n)` for an integer. */
  function Show(n: int): (r: string)
    ensures |r| > 0
    ensures forall i :: 0 <= i < |r| ==> IsDigit(r[i]) || (i == 0 && r[i] == '-')
  {
    if n < 0 then "-" + ShowNat(-n) else ShowNat(n)
  }

  function DigitOf(c: char): nat
    requires IsDigit(c)
  {
    c as int - '0' as int
  }

  function DigitsValue(s: string): nat
    requires forall i :: 0 <= i < |s| ==> IsDigit(s[i])
  {
    if s == [] then 0 else DigitsValue(s[..|s| - 1]) * 10 + DigitOf(s[|s| - 1])
  }

  predicate AllDigits(s: string) {
    forall i :: 0 <= i < |s| ==> IsDigit(s[i])
  }

  /**
   * Python's `int()` on text already stripped: an optional sign, then one or
   * more digits. None where Python raises ValueError.
   */
  function ParseSigned(t: string): (r: Option<int>)
    ensures r.Some? ==> t != ""
  {
    if |t| > 0 && (t[0] == '+' || t[0] == '-') then
      var body := t[1..];
      if body != "" && AllDigits(body) then
        var v: int := DigitsValue(body);
        Some(if t[0] == '-' then -v else v)
      else None
    else if t != "" && AllDigits(t) then Some(DigitsValue(t))
    else None
  }

  /** Python's `int(s)` on a string: surrounding whitespace is ignored. */
  function ParseInt(s: string): (r: Option<int>)
    ensures r.Some? ==> Strip(s) != ""
  {
    ParseSigned(Strip(s))
  }

  lemma {:induction false} DigitsValueOfShowNat(n: nat)
    ensures DigitsValue(ShowNat(n)) == n
  {
    if n >= 10 {
      var s := ShowNat(n);
      DigitsValueOfShowNat(n / 10);
      assert s[..|s| - 1] == ShowNat(n / 10);
      assert s[|s| - 1] == DigitChar(n % 10);
    } else {
      assert ShowNat(n) == [DigitChar(n)];
    }
  }

  lemma StripOfDigits(s: string)
    requires |s| > 0 && forall i :: 0 <= i < |s| ==> IsDigit(s[i]) || (i == 0 && s[i] == '-')
    ensures Strip(s) == s
  {
    assert !IsSpace(s[0]);
    assert LStripSpace(s) == s;
    assert !IsSpace(s[|s| - 1]);
    assert RStripSpace(s) == s;
  }

  /** Whitespace on either side of a word without outer whitespace is what `strip()` removes. */
  lemma {:induction false} StripPadded(a: string, w: string, b: string)
    requires forall i :: 0 <= i < |a| ==> IsSpace(a[i])
    requires forall i :: 0 <= i < |b| ==> IsSpace(b[i])
    requires |w| > 0 && !IsSpace(w[0]) && !IsSpace(w[|w| - 1])
    ensures Strip(a + w + b) == w
  {
    LStripPadded(a, w + b);
    assert a + w + b == a + (w + b);
    RStripPadded(w, b);
  }

  lemma {:induction false} LStripPadded(a: string, s: string)
    requires forall i :: 0 <= i < |a| ==> IsSpace(a[i])
    requires |s| > 0 && !IsSpace(s[0])
    ensures LStripSpace(a + s) == s
    decreases |a|
  {
    if a == [] {
      assert a + s == s;
    } else {
      assert (a + s)[1..] == a[1..] + s;
      LStripPadded(a[1..], s);
    }
  }

  lemma {:induction false} RStripPadded(s: string, b: string)
    requires forall i :: 0 <= i < |b| ==> IsSpace(b[i])
    requires |s| > 0 && !IsSpace(s[|s| - 1])
    ensures RStripSpace(s + b) == s
    decreases |b|
  {
    if b == [] {
      assert s + b == s;
    } else {
      assert (s + b)[..|s + b| - 1] == s + b[..|b| - 1];
      RStripPadded(s, b[..|b| - 1]);
    }
  }

  lemma ParseSignedOfDigits(t: string)
    requires t != "" && AllDigits(t)
    ensures ParseSigned(t) == Some(DigitsValue(t))
  {
    assert IsDigit(t[0]);
  }

  lemma ParseSignedOfNegative(m: string)
    requires m != "" && AllDigits(m)
    ensures ParseSigned("-" + m) == Some(-(DigitsValue(m) as int))
  {
    assert ("-" + m)[1..] == m;
  }

  lemma ParseIntOfDigits(t: string)
    requires t != "" && AllDigits(t)
    ensures ParseInt(t) == Some(DigitsValue(t))
  {
    StripOfDigits(t);
    ParseSignedOfDigits(t);
  }

  lemma ParseIntOfNegative(m: string)
    requires m != "" && AllDigits(m)
    ensures ParseInt("-" + m) == Some(-(DigitsValue(m) as int))
  {
    StripOfDigits("-" + m);
    ParseSignedOfNegative(m);
  }

  /** Reading back what `str()` writes gives the same integer: `int(str(n)) == n`. */
  lemma ParseIntShow(n: int)
    ensures ParseInt(Show(n)) == Some(n)
  {
    var s := Show(n);
    StripOfDigits(s);
    ParseSignedShow(n);
  }

  /** `str(n)` has no surrounding whitespace, so it only remains to read its sign and digits. */
  lemma ParseSignedShow(n: int)
    ensures ParseSigned(Show(n)) == Some(n)
  {
    if n < 0 {
      ParseSignedShowNegative(-n);
    } else {
      ParseSignedShowNat(n);
    }
  }

  lemma ParseSignedShowNat(n: nat)
    ensures ParseSigned(ShowNat(n)) == Some(n)
  {
    DigitsValueOfShowNat(n);
    ParseSignedOfDigits(ShowNat(n));
  }

  lemma ParseSignedShowNegative(n: nat)
    ensures ParseSigned("-" + ShowNat(n)) == Some(-(n as int))
  {
    DigitsValueOfShowNat(n);
    ParseSignedOfNegative(ShowNat(n));
  }
}
