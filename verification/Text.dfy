/** Decimal numbers, trimming and splitting, as the header parsers use them. */
module Text {
  import opened Prelude

  // ----- numbers -----------------------------------------------------------------------------------

  predicate IsDigit(c: char) {
    '0' <= c <= '9'
  }

  function DigitValue(c: char): nat
    requires IsDigit(c)
  {
    c as int - '0' as int
  }

  function Decimal(n: nat): (s: string)
    ensures s != "" && forall c :: c in s ==> IsDigit(c)
  {
    (if n < 10 then "" else Decimal(n / 10)) + ["0123456789"[n % 10]]
  }

  function DecimalInt(i: int): string {
    if i < 0 then "-" + Decimal(-i) else Decimal(i)
  }

  /** The value of a string of digits, if it is one. */
  function DigitsValue(s: string): Option<nat> {
    if s == "" then Some(0) else
      var last := s[|s| - 1];
      match DigitsValue(s[..|s| - 1])
      case None => None
      case Some(v) => if IsDigit(last) then Some(10 * v + DigitValue(last)) else None
  }

  /** Unsigned 64-bit parsing: an optional plus sign, then digits, no overflow. */
  function ParseU64(s: string): (r: Option<U64>) {
    var digits := if |s| > 1 && s[0] == '+' then s[1..] else s;
    if digits == "" then None else
      match DigitsValue(digits)
      case None => None
      case Some(v) => if v <= U64_MAX then Some(v) else None
  }

  lemma {:induction false} DigitsOfDecimal(n: nat)
    ensures DigitsValue(Decimal(n)) == Some(n)
  {
    var s := Decimal(n);
    if n >= 10 {
      DigitsOfDecimal(n / 10);
      assert s[..|s| - 1] == Decimal(n / 10);
    } else {
      assert s[..|s| - 1] == "";
    }
    LastDigit(n);
  }

  lemma LastDigit(n: nat)
    ensures var c := Decimal(n)[|Decimal(n)| - 1]; IsDigit(c) && DigitValue(c) == n % 10
  {
  }

  lemma ParseDecimal(n: nat)
    ensures ParseU64(Decimal(n)) == if n <= U64_MAX then Some(n) else None
  {
    DigitsOfDecimal(n);
    assert Decimal(n)[0] in Decimal(n);
  }

  lemma ParseNegative(n: nat)
    ensures ParseU64("-" + Decimal(n)) == None
  {
    NoDigitsWithMinus(Decimal(n));
  }

  lemma {:induction false} NoDigitsWithMinus(s: string)
    ensures DigitsValue("-" + s) == None
  {
    var t := "-" + s;
    if s == "" {
      assert t[..0] == "";
    } else {
      NoDigitsWithMinus(s[..|s| - 1]);
      assert t[..|t| - 1] == "-" + s[..|s| - 1];
    }
  }

  /** Leading zeros. */
  predicate Zeros(s: string) {
    forall i :: 0 <= i < |s| ==> s[i] == '0'
  }

  lemma {:induction false} ZerosAddNothing(z: string, v: nat)
    requires Zeros(z)
    ensures DigitsValue(z + Decimal(v)) == Some(v)
  {
    var s := z + Decimal(v);
    LastDigit(v);
    if v >= 10 {
      assert Decimal(v) == Decimal(v / 10) + [Decimal(v)[|Decimal(v)| - 1]];
      assert s[..|s| - 1] == z + Decimal(v / 10);
      ZerosAddNothing(z, v / 10);
    } else {
      assert s[..|s| - 1] == z;
      ZerosAreZero(z);
    }
  }

  lemma {:induction false} ZerosAreZero(z: string)
    requires Zeros(z)
    ensures DigitsValue(z) == Some(0)
  {
    if z != "" {
      ZerosAreZero(z[..|z| - 1]);
    }
  }

  lemma DigitAppended(v: nat, d: nat)
    requires v > 0 && d < 10
    ensures Decimal(10 * v + d) == Decimal(v) + ["0123456789"[d]]
  {
    assert (10 * v + d) / 10 == v && (10 * v + d) % 10 == d;
  }

  lemma DigitOf(c: char)
    requires IsDigit(c)
    ensures DigitValue(c) < 10 && "0123456789"[DigitValue(c)] == c
  {
  }

  /** One more digit behind a number behind zeros. */
  lemma DigitBehind(z: string, v: nat, d: nat) returns (y: string)
    requires Zeros(z) && d < 10
    ensures Zeros(y) && z + Decimal(v) + ["0123456789"[d]] == y + Decimal(10 * v + d)
  {
    if v > 0 {
      y := z;
      DigitAppended(v, d);
      assert z + Decimal(v) + ["0123456789"[d]] == z + (Decimal(v) + ["0123456789"[d]]);
    } else {
      y := z + "0";
      assert Decimal(0) == "0" && Decimal(d) == ["0123456789"[d]];
    }
  }

  lemma LastOfDigits(s: string)
    requires s != "" && DigitsValue(s).Some?
    ensures var (init, last) := (s[..|s| - 1], s[|s| - 1]);
            DigitsValue(init).Some? && IsDigit(last) && DigitsValue(s).value == 10 * DigitsValue(init).value + DigitValue(last)
  {
  }

  /** A string of digits is the number it stands for, behind some zeros. */
  lemma {:induction false} DigitsAreDecimal(s: string) returns (z: string)
    requires s != "" && DigitsValue(s).Some?
    ensures Zeros(z) && s == z + Decimal(DigitsValue(s).value)
  {
    var init, last := s[..|s| - 1], s[|s| - 1];
    assert s == init + [last];
    LastOfDigits(s);
    DigitOf(last);
    if init == "" {
      z := "";
      assert Decimal(DigitValue(last)) == [last];
    } else {
      z := DigitsAreDecimal(init);
      z := DigitBehind(z, DigitsValue(init).value, DigitValue(last));
    }
  }

  /** What is parsed as `v`: an optional plus sign, any number of zeros, and `v` in decimal. */
  ghost predicate Writes(s: string, v: nat) {
    exists z :: Zeros(z) && (s == z + Decimal(v) || s == "+" + (z + Decimal(v)))
  }

  /** A string is parsed as a 64-bit number if and only if it writes that number. */
  lemma ParseIff(s: string, v: U64)
    ensures ParseU64(s) == Some(v) <==> Writes(s, v)
  {
    if ParseU64(s) == Some(v) {
      var digits := if |s| > 1 && s[0] == '+' then s[1..] else s;
      var z := DigitsAreDecimal(digits);
      assert s == digits || s == "+" + digits;
    }
    if Writes(s, v) {
      var z :| Zeros(z) && (s == z + Decimal(v) || s == "+" + (z + Decimal(v)));
      ZerosAddNothing(z, v);
      NoPlus(z, v);
    }
  }

  lemma NoPlus(z: string, v: nat)
    requires Zeros(z)
    ensures (z + Decimal(v))[0] != '+' && ("+" + (z + Decimal(v)))[1..] == z + Decimal(v)
  {
    assert (z + Decimal(v))[0] in z + Decimal(v);
  }

  // ----- trimming --------------------------------------------------------------------------------------

  /** The characters with the Unicode property White_Space. */
  predicate IsSpace(c: char) {
    '\t' <= c <= '\r' || c == ' ' || c == '\U{85}' || c == '\U{A0}' || c == '\U{1680}' ||
    '\U{2000}' <= c <= '\U{200A}' || c == '\U{2028}' || c == '\U{2029}' || c == '\U{202F}' ||
    c == '\U{205F}' || c == '\U{3000}'
  }

  /** Blanks, tabs and line ends are spaces; nothing printable in ASCII is. */
  lemma CommonSpaces()
    ensures forall c: char :: c in " \t\n\r" ==> IsSpace(c)
    ensures forall c: char :: '!' <= c <= '~' ==> !IsSpace(c)
  {
  }

  predicate Blank(s: string) {
    forall c :: c in s ==> IsSpace(c)
  }

  /** Without any white space. */
  predicate Solid(s: string) {
    forall c :: c in s ==> !IsSpace(c)
  }

  function TrimStart(s: string): string {
    if s != "" && IsSpace(s[0]) then TrimStart(s[1..]) else s
  }

  function TrimEnd(s: string): string {
    if s != "" && IsSpace(s[|s| - 1]) then TrimEnd(s[..|s| - 1]) else s
  }

  function Trim(s: string): string {
    TrimEnd(TrimStart(s))
  }

  lemma {:induction false} TrimStartPad(pad: string, s: string)
    requires Blank(pad)
    ensures TrimStart(pad + s) == TrimStart(s)
  {
    if pad == "" {
      assert pad + s == s;
    } else {
      assert pad[0] in pad;
      assert (pad + s)[1..] == pad[1..] + s;
      TrimStartPad(pad[1..], s);
    }
  }

  lemma {:induction false} TrimEndPad(s: string, pad: string)
    requires Blank(pad)
    ensures TrimEnd(s + pad) == TrimEnd(s)
  {
    if pad == "" {
      assert s + pad == s;
    } else {
      assert pad[|pad| - 1] in pad;
      assert (s + pad)[..|s + pad| - 1] == s + pad[..|pad| - 1];
      TrimEndPad(s, pad[..|pad| - 1]);
    }
  }

  /** What follows a character that is no space decides what trimming the end removes. */
  lemma {:induction false} TrimEndStops(s: string, c: char, rest: string)
    requires !IsSpace(c)
    ensures TrimEnd(s + [c] + rest) == s + [c] + TrimEnd(rest)
  {
    var t := s + [c] + rest;
    if rest == "" {
      assert t[|t| - 1] == c;
      assert t == s + [c] + TrimEnd(rest);
    } else if IsSpace(rest[|rest| - 1]) {
      assert t[..|t| - 1] == s + [c] + rest[..|rest| - 1];
      TrimEndStops(s, c, rest[..|rest| - 1]);
    }
  }

  /** A padded solid word is recovered by trimming. */
  lemma TrimWord(before: string, word: string, after: string)
    requires Blank(before) && Blank(after) && Solid(word) && word != ""
    ensures Trim(before + word + after) == word
  {
    assert before + word + after == before + (word + after);
    TrimStartPad(before, word + after);
    assert (word + after)[0] in word;
    TrimEndPad(word, after);
    assert word[|word| - 1] in word;
  }

  // ----- splitting ------------------------------------------------------------------------------------

  function Split(s: string, sep: char): (parts: seq<string>)
    ensures parts != []
  {
    if s == "" then [""] else
      var rest := Split(s[1..], sep);
      if s[0] == sep then [""] + rest else [[s[0]] + rest[0]] + rest[1..]
  }

  lemma {:induction false} SplitNone(a: string, sep: char)
    requires sep !in a
    ensures Split(a, sep) == [a]
  {
    if a != "" {
      SplitNone(a[1..], sep);
      assert [a[0]] + a[1..] == a;
    }
  }

  lemma {:induction false} SplitFirst(a: string, sep: char, b: string)
    requires sep !in a
    ensures Split(a + [sep] + b, sep) == [a] + Split(b, sep)
  {
    var s := a + [sep] + b;
    if a == "" {
      assert s[1..] == b;
    } else {
      assert s[1..] == a[1..] + [sep] + b;
      SplitFirst(a[1..], sep, b);
      assert [a[0]] + a[1..] == a;
    }
  }
}
