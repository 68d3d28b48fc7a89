/**
 * Character classes and integer formatting shared by the input gate and the colour codecs:
 * JavaScript's whitespace class, decimal and hexadecimal digits, `Number.prototype.toString`
 * for non-negative integers and `parseInt` on digit strings.
 */
module Text {

  /** The characters that `String.prototype.trim` removes and the regular-expression class `\s` matches
      (ECMAScript WhiteSpace and LineTerminator). */
  predicate IsSpace(c: char) {
    c == ' ' || c == '\t' || c == '\n' || c == '\r' || c == '\U{000B}' || c == '\U{000C}'
    || c == '\U{00A0}' || c == '\U{1680}' || ('\U{2000}' <= c <= '\U{200A}')
    || c == '\U{2028}' || c == '\U{2029}' || c == '\U{202F}' || c == '\U{205F}'
    || c == '\U{3000}' || c == '\U{FEFF}'
  }

  predicate AllSpaces(s: string) {
    forall i | 0 <= i < |s| :: IsSpace(s[i])
  }

  /** The length of the longest prefix of `s` whose characters satisfy `p`. */
  function Run(p: char -> bool, s: string): (n: nat)
    ensures n <= |s|
    ensures forall i | 0 <= i < n :: p(s[i])
    ensures n < |s| ==> !p(s[n])
  {
    if s == [] || !p(s[0]) then 0 else 1 + Run(p, s[1..])
  }

  lemma {:induction false} RunOfPrefix(p: char -> bool, d: string, rest: string)
    requires forall i | 0 <= i < |d| :: p(d[i])
    requires rest == [] || !p(rest[0])
    ensures Run(p, d + rest) == |d|
  {
    if d != [] {
      assert (d + rest)[1..] == d[1..] + rest;
      RunOfPrefix(p, d[1..], rest);
    } else {
      assert d + rest == rest;
    }
  }

  /** `s.trimStart()`, and what `\s*` skips at the start of `s`: `s` without its leading whitespace. */
  function TrimStart(s: string): (t: string)
    ensures |t| <= |s| && t == s[|s| - |t|..]
    ensures AllSpaces(s[..|s| - |t|])
    ensures t == [] || !IsSpace(t[0])
  {
    s[Run(IsSpace, s)..]
  }

  lemma TrimStartOf(w: string, rest: string)
    requires AllSpaces(w) && (rest == [] || !IsSpace(rest[0]))
    ensures TrimStart(w + rest) == rest
  {
    RunOfPrefix(IsSpace, w, rest);
  }

  /** A leading whitespace character is always removed. */
  lemma TrimStartShortens(s: string)
    requires s != [] && IsSpace(s[0])
    ensures |TrimStart(s)| < |s|
  {
    assert Run(IsSpace, s) == 1 + Run(IsSpace, s[1..]);
  }

  /** `s` is its leading spaces followed by what `TrimStart` leaves. */
  lemma TrimStartSplit(s: string)
    ensures s == s[..|s| - |TrimStart(s)|] + TrimStart(s)
  {
  }

  // ---------------------------------------------------------------- decimal

  /** The regular-expression class `\d`: ASCII digits only. */
  predicate IsDigit(c: char) {
    '0' <= c <= '9'
  }

  predicate AllDigits(s: string) {
    forall i | 0 <= i < |s| :: IsDigit(s[i])
  }

  function DigitValue(c: char): (d: nat)
    requires IsDigit(c)
    ensures d < 10
  {
    c as int - '0' as int
  }

  function DigitChar(d: nat): (c: char)
    requires d < 10
    ensures IsDigit(c) && DigitValue(c) == d
  {
    ('0' as int + d) as char
  }

  /** How JavaScript prints a non-negative integer in a template string: decimal, no leading zeros. */
  function Dec(n: nat): (s: string)
    ensures |s| > 0 && AllDigits(s)
  {
    if n < 10 then [DigitChar(n)] else Dec(n / 10) + [DigitChar(n % 10)]
  }

  /** `parseInt(s)` (radix 10) on a string of decimal digits. */
  function ParseDec(s: string): nat
    requires AllDigits(s)
  {
    if s == [] then 0 else ParseDec(s[..|s| - 1]) * 10 + DigitValue(s[|s| - 1])
  }

  lemma {:induction false} ParseDecOfDec(n: nat)
    ensures ParseDec(Dec(n)) == n
  {
    if n >= 10 {
      var s := Dec(n);
      assert s[..|s| - 1] == Dec(n / 10);
      ParseDecOfDec(n / 10);
    }
  }

  /** Decimal printing is injective: distinct integers print differently. */
  lemma DecInjective(m: nat, n: nat)
    requires m != n
    ensures Dec(m) != Dec(n)
  {
    ParseDecOfDec(m);
    ParseDecOfDec(n);
  }

  // ---------------------------------------------------------------- hexadecimal

  /** `[a-f\d]` under the case-insensitive flag. */
  predicate IsHexDigit(c: char) {
    IsDigit(c) || 'a' <= c <= 'f' || 'A' <= c <= 'F'
  }

  predicate AllHex(s: string) {
    forall i | 0 <= i < |s| :: IsHexDigit(s[i])
  }

  /** The digits `Number.prototype.toString(16)` produces. */
  predicate IsLowerHexDigit(c: char) {
    IsDigit(c) || 'a' <= c <= 'f'
  }

  predicate AllLowerHex(s: string) {
    forall i | 0 <= i < |s| :: IsLowerHexDigit(s[i])
  }

  function HexValue(c: char): (d: nat)
    requires IsHexDigit(c)
    ensures d < 16
  {
    if IsDigit(c) then DigitValue(c)
    else if 'a' <= c <= 'f' then c as int - 'a' as int + 10
    else c as int - 'A' as int + 10
  }

  function HexChar(d: nat): (c: char)
    requires d < 16
    ensures IsLowerHexDigit(c) && IsHexDigit(c) && HexValue(c) == d
  {
    if d < 10 then DigitChar(d) else ('a' as int + (d - 10)) as char
  }

  function LowerChar(c: char): char {
    if 'A' <= c <= 'F' then (c as int - 'A' as int + 'a' as int) as char else c
  }

  /** A hex-digit string with its upper-case digits folded to lower case. */
  function LowerHex(s: string): (t: string)
    ensures |t| == |s|
    ensures forall i | 0 <= i < |s| :: t[i] == LowerChar(s[i])
  {
    seq(|s|, i requires 0 <= i < |s| => LowerChar(s[i]))
  }

  function Pow16(k: nat): (p: nat)
    ensures p >= 1
  {
    if k == 0 then 1 else 16 * Pow16(k - 1)
  }

  /** The last `k` hexadecimal digits of `n`, zero-padded to exactly `k` lower-case digits. */
  function FixedHex(n: nat, k: nat): (s: string)
    ensures |s| == k
  {
    if k == 0 then [] else FixedHex(n / 16, k - 1) + [HexChar(n % 16)]
  }

  /** Every digit `FixedHex` prints is a lower-case hex digit. */
  lemma {:induction false} FixedHexDigits(n: nat, k: nat)
    ensures AllLowerHex(FixedHex(n, k)) && AllHex(FixedHex(n, k))
  {
    if k > 0 {
      FixedHexDigits(n / 16, k - 1);
      var s := FixedHex(n, k);
      assert s == FixedHex(n / 16, k - 1) + [HexChar(n % 16)];
    }
  }

  /** `n.toString(16)` for a non-negative integer `n`: lower-case, no leading zeros. */
  function HexNat(n: nat): (s: string)
    ensures |s| > 0
  {
    if n < 16 then [HexChar(n)] else HexNat(n / 16) + [HexChar(n % 16)]
  }

  /** Every digit `toString(16)` prints is a lower-case hex digit. */
  lemma {:induction false} HexNatDigits(n: nat)
    ensures AllLowerHex(HexNat(n))
  {
    if n >= 16 {
      HexNatDigits(n / 16);
      var s := HexNat(n);
      assert s == HexNat(n / 16) + [HexChar(n % 16)];
    }
  }

  /** `parseInt(_, 16)` reads back the value `toString(16)` printed. */
  lemma {:induction false} HexNatValue(n: nat)
    ensures AllHex(HexNat(n)) && ParseHex(HexNat(n)) == n
  {
    if n < 16 {
      ParseHexSnoc(HexNat(n), [], HexChar(n), 0, n, n);
    } else {
      HexNatValue(n / 16);
      ParseHexSnoc(HexNat(n), HexNat(n / 16), HexChar(n % 16), n / 16, n % 16, n);
    }
  }

  /** `parseInt(s, 16)` on a string of hexadecimal digits of either case. */
  function ParseHex(s: string): (n: nat)
    requires AllHex(s)
    ensures n < Pow16(|s|)
  {
    if s == [] then 0 else ParseHex(s[..|s| - 1]) * 16 + HexValue(s[|s| - 1])
  }

  lemma DivMod16(q: nat, d: nat)
    requires d < 16
    ensures (16 * q + d) / 16 == q && (16 * q + d) % 16 == d
  {
  }

  /** Reading back a zero-padded hex field gives the number that was printed. */
  lemma {:induction false} ParseHexOfFixedHex(n: nat, k: nat)
    requires n < Pow16(k)
    ensures AllHex(FixedHex(n, k)) && ParseHex(FixedHex(n, k)) == n
  {
    if k > 0 {
      LastDigit(n, k);
      ParseHexOfFixedHex(n / 16, k - 1);
      ParseHexSnoc(FixedHex(n, k), FixedHex(n / 16, k - 1), HexChar(n % 16), n / 16, n % 16, n);
    } else {
      FixedHexDigits(n, k);
    }
  }

  /** Reading `init + [c]` reads `init` and then one more digit. */
  lemma ParseHexSnoc(s: string, init: string, c: char, q: nat, d: nat, n: nat)
    requires AllHex(init) && IsHexDigit(c) && s == init + [c]
    requires ParseHex(init) == q && HexValue(c) == d && n == 16 * q + d
    ensures AllHex(s) && ParseHex(s) == n
  {
    assert s[..|s| - 1] == init;
  }

  /** Printing what was read back gives the digits that were read, folded to lower case. */
  lemma {:induction false} FixedHexOfParseHex(s: string)
    requires AllHex(s)
    ensures FixedHex(ParseHex(s), |s|) == LowerHex(s)
  {
    if s != [] {
      var init, c := s[..|s| - 1], s[|s| - 1];
      var q := ParseHex(init);
      assert ParseHex(s) == 16 * q + HexValue(c);
      FixedHexOfParseHex(init);
      FixedHexStep(ParseHex(s), q, HexValue(c), |s|, |init|);
      LowerHexStep(s, init, c, FixedHex(q, |init|));
    }
  }

  /** Folding `init + [c]` to lower case folds `init` and then prints the value of `c`. */
  lemma LowerHexStep(s: string, init: string, c: char, f: string)
    requires IsHexDigit(c) && s == init + [c] && f == LowerHex(init)
    ensures f + [HexChar(HexValue(c))] == LowerHex(s)
  {
    HexCharOfValue(c);
    LowerHexSnoc(init, c);
  }

  /** Printing the value of a digit gives the digit in lower case. */
  lemma HexCharOfValue(c: char)
    requires IsHexDigit(c)
    ensures HexChar(HexValue(c)) == LowerChar(c)
  {
  }

  lemma LowerHexSnoc(s: string, c: char)
    ensures LowerHex(s + [c]) == LowerHex(s) + [LowerChar(c)]
  {
  }

  /** `a * 16^k`, as `k` multiplications by 16. */
  function Shift16(a: nat, k: nat): (s: nat)
    ensures s >= a
  {
    if k == 0 then a else 16 * Shift16(a, k - 1)
  }

  lemma Shift16By2(a: nat)
    ensures Shift16(a, 2) == 256 * a
  {
    assert Shift16(a, 1) == 16 * a;
  }

  /** The last digit of a `k`-digit number splits off, leaving a `k - 1`-digit number. */
  lemma LastDigit(b: nat, k: nat)
    requires k > 0 && b < Pow16(k)
    ensures b / 16 < Pow16(k - 1) && b == 16 * (b / 16) + b % 16
  {
  }

  /** Printing `16 * q + d` in `n` digits prints `q` in `n - 1` digits and then the digit `d`. */
  lemma FixedHexStep(m: nat, q: nat, d: nat, n: nat, n1: nat)
    requires d < 16 && m == 16 * q + d && n == n1 + 1
    ensures FixedHex(m, n) == FixedHex(q, n1) + [HexChar(d)]
  {
    DivMod16(q, d);
  }

  /** Printing `16 * h + d` for `h >= 1` prints `h` and then the digit `d`. */
  lemma HexNatStep(m: nat, h: nat, d: nat)
    requires d < 16 && m == 16 * h + d && h >= 1
    ensures HexNat(m) == HexNat(h) + [HexChar(d)]
  {
    DivMod16(h, d);
  }

  /** When `h` prints as `p + f`, `16 * h + d` prints as `p` followed by `f` and the digit `d`. */
  lemma HexNatAppend(m: nat, h: nat, d: nat, p: string, f: string)
    requires d < 16 && m == 16 * h + d && h >= 1 && HexNat(h) == p + f
    ensures HexNat(m) == p + (f + [HexChar(d)])
  {
    HexNatStep(m, h, d);
  }

  /** A `j + k` digit field of `a * 16^k + b` is the `j` digits of `a` followed by the `k` digits of `b`. */
  lemma {:induction false} FixedHexSplit(a: nat, b: nat, j: nat, k: nat)
    requires b < Pow16(k)
    ensures FixedHex(Shift16(a, k) + b, j + k) == FixedHex(a, j) + FixedHex(b, k)
  {
    if k > 0 {
      LastDigit(b, k);
      FixedHexSplit(a, b / 16, j, k - 1);
      var m := Shift16(a, k) + b;
      FixedHexStep(m, Shift16(a, k - 1) + b / 16, b % 16, j + k, j + (k - 1));
      Associative(FixedHex(a, j), FixedHex(b / 16, k - 1), [HexChar(b % 16)]);
    } else {
      assert FixedHex(b, k) == [];
      assert FixedHex(a, j) + [] == FixedHex(a, j);
    }
  }

  /** Concatenation is associative. */
  lemma Associative<T>(p: seq<T>, f: seq<T>, c: seq<T>)
    ensures (p + f) + c == p + (f + c)
  {
  }

  /** For `q >= 1`, printing `q * 16^k + rest` prints `q` and then `rest` padded to `k` digits. */
  lemma {:induction false} HexNatSplit(q: nat, rest: nat, k: nat)
    requires q >= 1 && rest < Pow16(k)
    ensures HexNat(Shift16(q, k) + rest) == HexNat(q) + FixedHex(rest, k)
  {
    if k > 0 {
      LastDigit(rest, k);
      HexNatSplit(q, rest / 16, k - 1);
      HexNatAppend(Shift16(q, k) + rest, Shift16(q, k - 1) + rest / 16, rest % 16, HexNat(q), FixedHex(rest / 16, k - 1));
    }
  }
}
