/** What is printed into rate-limit headers is what the parser reads back. */
module HeaderText {
  import opened Prelude
  import opened Text
  import opened RateLimit

  /** "a, b" */
  function Pair(a: string, b: string): string {
    a + ", " + b
  }

  /** "n;w=size" behind some space */
  function PolicyPart(before: string, n: nat, size: nat): string {
    before + Decimal(n) + [';'] + ("w=" + Decimal(size))
  }

  /** "n;w=size, m;w=size" */
  function Policy(n: nat, nWindow: nat, m: nat, mWindow: nat): string {
    PolicyPart("", n, nWindow) + [','] + PolicyPart(" ", m, mWindow)
  }

  /** A header value no separator or space can hide in. */
  predicate Plain(x: string) {
    x != "" && Solid(x) && ';' !in x && ',' !in x
  }

  /** Parameters as they may follow a value. */
  predicate Parameters(p: string) {
    (p == "" || p[0] == ';') && ',' !in p
  }

  /** A value with spaces around it and parameters behind it. */
  function Decorated(before: string, x: string, after: string, params: string): string {
    before + x + after + params
  }

  lemma DecimalIsPlain(n: nat)
    ensures Plain(Decimal(n))
  {
    assert forall c :: c in Decimal(n) ==> IsDigit(c);
  }

  lemma LeadingNumberIsFound(before: string, x: string, after: string, params: string)
    requires Plain(x) && Blank(before) && Blank(after) && Parameters(params)
    ensures LeadingNumber(Decorated(before, x, after, params)) == ParseU64(x)
  {
    var part := Decorated(before, x, after, params);
    if params == "" {
      assert part == before + x + after;
      TrimWord(before, x, after);
      SplitNone(x, ';');
      assert "" + x + "" == x;
      TrimWord("", x, "");
    } else {
      var rest := params[1..];
      assert params == [';'] + rest;
      assert part == before + (x + after + [';'] + rest);
      TrimStartPad(before, x + after + [';'] + rest);
      assert (x + after + [';'] + rest)[0] in x;
      TrimEndStops(x + after, ';', rest);
      assert ';' !in x + after;
      SplitFirst(x + after, ';', TrimEnd(rest));
      assert "" + x + after == x + after;
      TrimWord("", x, after);
    }
  }

  /** Both values of a pair are read back, whatever spaces and parameters surround them. */
  lemma DecoratedPairRoundTrip(b1: string, x1: string, a1: string, p1: string, b2: string, x2: string, a2: string, p2: string)
    requires Plain(x1) && Blank(b1) && Blank(a1) && Parameters(p1)
    requires Plain(x2) && Blank(b2) && Blank(a2) && Parameters(p2)
    ensures ParseWindows(Decorated(b1, x1, a1, p1) + [','] + Decorated(b2, x2, a2, p2)) ==
            Windows(ParseU64(x1), ParseU64(x2))
  {
    var first, second := Decorated(b1, x1, a1, p1), Decorated(b2, x2, a2, p2);
    assert ',' !in first && ',' !in second;
    SplitFirst(first, ',', second);
    SplitNone(second, ',');
    LeadingNumberIsFound(b1, x1, a1, p1);
    LeadingNumberIsFound(b2, x2, a2, p2);
  }

  lemma PairRoundTrip(x1: string, x2: string)
    requires Plain(x1) && Plain(x2)
    ensures ParseWindows(Pair(x1, x2)) == Windows(ParseU64(x1), ParseU64(x2))
  {
    assert Pair(x1, x2) == Decorated("", x1, "", "") + [','] + Decorated(" ", x2, "", "");
    DecoratedPairRoundTrip("", x1, "", "", " ", x2, "", "");
  }

  /** For all 64-bit pairs the printed header is parsed back exactly. */
  lemma NumbersRoundTrip(a: U64, b: U64)
    ensures ParseWindows(Pair(Decimal(a), Decimal(b))) == Windows(Some(a), Some(b))
  {
    DecimalIsPlain(a);
    DecimalIsPlain(b);
    PairRoundTrip(Decimal(a), Decimal(b));
    ParseDecimal(a);
    ParseDecimal(b);
  }

  lemma UnknownMonthRoundTrip(a: U64)
    ensures ParseWindows(Pair(Decimal(a), "?")) == Windows(Some(a), None)
  {
    DecimalIsPlain(a);
    PairRoundTrip(Decimal(a), "?");
    ParseDecimal(a);
    assert DigitsValue("?") == None by { assert "?"[..0] == ""; }
  }

  lemma WindowParameterIsFound(before: string, x: string, y: string)
    requires Blank(before) && Plain(x) && Plain(y) && x[0] != 'w'
    ensures FirstWindowParameter(Split(before + x + [';'] + ("w=" + y), ';')) == Some(y)
  {
    var kv := "w=" + y;
    SplitFirst(before + x, ';', kv);
    SplitNone(kv, ';');
    assert before + x == before + x + "";
    TrimWord(before, x, "");
    assert kv == "" + kv + "";
    TrimWord("", kv, "");
    assert [before + x, kv][1..] == [kv];
    assert FirstWindowParameter([kv]) == Some(y);
  }

  lemma WindowNumberIsFound(before: string, x: string, size: nat)
    requires Blank(before) && Plain(x) && x[0] != 'w'
    ensures WindowNumber(before + x + [';'] + ("w=" + Decimal(size))) == if size <= U64_MAX then Some(size) else None
  {
    DecimalIsPlain(size);
    WindowParameterIsFound(before, x, Decimal(size));
    assert "" + Decimal(size) + "" == Decimal(size);
    TrimWord("", Decimal(size), "");
    ParseDecimal(size);
  }

  lemma {:induction false} FirstParameterWins(before: seq<string>, kv: string, after: seq<string>)
    requires "w=" <= Trim(kv) && forall b :: b in before ==> !("w=" <= Trim(b))
    ensures FirstWindowParameter(before + [kv] + after) == Some(Trim(kv)[2..])
  {
    var kvs := before + [kv] + after;
    if before != [] {
      assert kvs[0] == before[0] && kvs[1..] == before[1..] + [kv] + after;
      FirstParameterWins(before[1..], kv, after);
    }
  }

  /** Of several window parameters the first one counts, whatever follows it. */
  lemma FirstWindowCounts(before: string, x: string, size: U64, rest: string)
    requires Blank(before) && Plain(x) && x[0] != 'w'
    ensures WindowNumber(before + x + [';'] + ("w=" + Decimal(size) + [';'] + rest)) == Some(size)
  {
    var kv := "w=" + Decimal(size);
    DecimalIsPlain(size);
    SplitFirst(before + x, ';', kv + [';'] + rest);
    SplitFirst(kv, ';', rest);
    assert before + x == before + x + "" && kv == "" + kv + "";
    TrimWord(before, x, "");
    TrimWord("", kv, "");
    assert [before + x] + ([kv] + Split(rest, ';')) == [before + x] + [kv] + Split(rest, ';');
    FirstParameterWins([before + x], kv, Split(rest, ';'));
    assert "" + Decimal(size) + "" == Decimal(size);
    TrimWord("", Decimal(size), "");
    ParseDecimal(size);
  }

  lemma PolicyPartIsOne(before: string, n: nat, size: nat)
    requires Blank(before)
    ensures ',' !in PolicyPart(before, n, size)
  {
    DecimalIsPlain(n);
    DecimalIsPlain(size);
  }

  /** The printed policy yields the window sizes to one parser and the limits to the other. */
  lemma PolicyRoundTrip(n: U64, nWindow: U64, m: U64, mWindow: U64)
    ensures ParsePolicyWindows(Policy(n, nWindow, m, mWindow)) == Windows(Some(nWindow), Some(mWindow))
    ensures ParseWindows(Policy(n, nWindow, m, mWindow)) == Windows(Some(n), Some(m))
  {
    PolicyPartIsOne("", n, nWindow);
    PolicyPartIsOne(" ", m, mWindow);
    SplitFirst(PolicyPart("", n, nWindow), ',', PolicyPart(" ", m, mWindow));
    SplitNone(PolicyPart(" ", m, mWindow), ',');
    PolicyPartRoundTrip("", n, nWindow);
    PolicyPartRoundTrip(" ", m, mWindow);
  }

  lemma PolicyPartRoundTrip(before: string, n: U64, size: U64)
    requires Blank(before)
    ensures WindowNumber(PolicyPart(before, n, size)) == Some(size)
    ensures LeadingNumber(PolicyPart(before, n, size)) == Some(n)
  {
    DecimalIsPlain(n);
    DecimalIsPlain(size);
    assert Decimal(n)[0] in Decimal(n);
    WindowNumberIsFound(before, Decimal(n), size);
    var params := [';'] + ("w=" + Decimal(size));
    assert PolicyPart(before, n, size) == Decorated(before, Decimal(n), "", params);
    LeadingNumberIsFound(before, Decimal(n), "", params);
    ParseDecimal(n);
  }
}
