/** Searching, splitting and parsing strings as the program does. */
module Strings {
  import opened Options

  // ----- searching -----

  predicate At(s: string, i: int, pattern: string) {
    0 <= i && i + |pattern| <= |s| && s[i..i + |pattern|] == pattern
  }

  /** The last occurrence at or before i, -1 when there is none. */
  function LastFrom(s: string, pattern: string, i: int): (r: int)
    ensures r == -1 || (r >= 0 && At(s, r, pattern))
    decreases i
  {
    if i < 0 then -1 else if At(s, i, pattern) then i else LastFrom(s, pattern, i - 1)
  }

  /** `rfind`. */
  function Rfind(s: string, pattern: string): int {
    LastFrom(s, pattern, |s|)
  }

  lemma {:induction false} LastFromIsLast(s: string, pattern: string, i: int, k: int)
    requires At(s, k, pattern) && k <= i
    ensures LastFrom(s, pattern, i) >= k
    decreases i
  {
    if !At(s, i, pattern) {
      LastFromIsLast(s, pattern, i - 1, k);
    }
  }

  predicate Contains(s: string, pattern: string) {
    Rfind(s, pattern) >= 0
  }

  lemma Found(s: string, pattern: string, k: int)
    requires At(s, k, pattern)
    ensures k <= Rfind(s, pattern) && Contains(s, pattern)
  {
    LastFromIsLast(s, pattern, |s|, k);
  }

  /** `s.split(c)[0]`. */
  function UpTo(s: string, c: char): (r: string)
    ensures r <= s && c !in r && (|r| < |s| ==> s[|r|] == c)
  {
    if s == [] || s[0] == c then [] else [s[0]] + UpTo(s[1..], c)
  }

  /** The first occurrence at or after i, -1 when there is none. */
  function Find(s: string, pattern: string, i: nat): (r: int)
    ensures r >= 0 ==> r >= i && At(s, r, pattern) && forall k | i <= k < r :: !At(s, k, pattern)
    ensures r < 0 ==> r == -1 && forall k | k >= i :: !At(s, k, pattern)
    decreases |s| - i
  {
    if i + |pattern| > |s| then -1 else if At(s, i, pattern) then i else Find(s, pattern, i + 1)
  }

  lemma FindIs(s: string, pattern: string, i: nat)
    requires At(s, i, pattern) && forall k | 0 <= k < i :: !At(s, k, pattern)
    ensures Find(s, pattern, 0) == i
  {
    var r := Find(s, pattern, 0);
  }

  lemma Absent(s: string, pattern: string, k: int)
    requires !Contains(s, pattern)
    ensures !At(s, k, pattern)
  {
    if At(s, k, pattern) {
      Found(s, pattern, k);
    }
  }

  lemma UpToIs(s: string, c: char, r: string)
    requires r <= s && c !in r && (|r| < |s| ==> s[|r|] == c)
    ensures UpTo(s, c) == r
  {
    var u := UpTo(s, c);
    Apart(s, c, u, r);
    Apart(s, c, r, u);
  }

  /** A prefix without c does not reach beyond an occurrence of c. */
  lemma Apart(s: string, c: char, u: string, r: string)
    requires u <= s && r <= s && c !in r && (|u| < |s| ==> s[|u|] == c)
    ensures |r| <= |u|
  {
    assert forall k | 0 <= k < |r| :: s[k] == r[k] && r[k] in r;
  }

  // ----- integers -----

  predicate IsDigit(c: char) {
    '0' <= c <= '9'
  }

  predicate AllDigits(s: string) {
    forall c | c in s :: IsDigit(c)
  }

  function ValueOf(s: string): nat
    requires AllDigits(s)
  {
    if s == [] then 0
    else
      assert s[|s| - 1] in s;
      ValueOf(s[..|s| - 1]) * 10 + (s[|s| - 1] as int - '0' as int)
  }

  predicate IsSpace(c: char) {
    c == ' ' || c == '\t' || c == '\n' || c == '\r' || c == '\U{0B}' || c == '\U{0C}'
  }

  function TrimLeft(s: string): string {
    if s != [] && IsSpace(s[0]) then TrimLeft(s[1..]) else s
  }

  function TrimRight(s: string): string {
    if s != [] && IsSpace(s[|s| - 1]) then TrimRight(s[..|s| - 1]) else s
  }

  /** `int(s)` for a text without underscores; None where it raises. */
  function ParseInt(s: string): Option<int> {
    var t := TrimRight(TrimLeft(s));
    var body := if t != [] && (t[0] == '-' || t[0] == '+') then t[1..] else t;
    if body == [] || !AllDigits(body) then None
    else Some(if t[0] == '-' then 0 - ValueOf(body) else ValueOf(body))
  }

  function Digits(n: nat): (r: string)
    ensures r != [] && AllDigits(r) && ValueOf(r) == n
  {
    var digit := ('0' as int + n % 10) as char;
    if n < 10 then [digit]
    else
      var r := Digits(n / 10) + [digit];
      assert r[..|r| - 1] == Digits(n / 10);
      r
  }

  /** `str(n)`. */
  function Decimal(n: int): string {
    if n < 0 then "-" + Digits(-n) else Digits(n)
  }

  /** `int(str(n)) == n`, and the text of a number holds no underscore and no slash. */
  lemma ParseDecimal(n: int)
    ensures ParseInt(Decimal(n)) == Some(n)
    ensures '_' !in Decimal(n) && '/' !in Decimal(n) && ('-' in Decimal(n) <==> n < 0)
  {
    var digits := Digits(if n < 0 then -n else n);
    var s := Decimal(n);
    assert digits[0] in digits && digits[|digits| - 1] in digits;
    assert s[|s| - 1] == digits[|digits| - 1];
    assert n < 0 ==> s[1..] == digits;
  }
}
