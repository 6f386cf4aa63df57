/** The list of subscription tokens, as it is read from the environment. */
module Config {
  import opened Prelude
  import opened Text
  import opened PoolSpec
  import opened KeyRuns
  import opened Window

  predicate IsSeparator(c: char) {
    c == ',' || c == ';' || IsSpace(c)
  }

  /** The pieces between separators, empty ones included. */
  function Pieces(raw: string): (p: seq<string>)
    ensures p != []
  {
    if raw == "" then [""] else
      var rest := Pieces(raw[1..]);
      if IsSeparator(raw[0]) then [""] + rest else [[raw[0]] + rest[0]] + rest[1..]
  }

  /** The tokens given, in order, with repetitions. */
  function Given(pieces: seq<string>): seq<string> {
    if pieces == [] then [] else
      var k := Trim(Last(pieces));
      if k == "" then Given(Init(pieces)) else Given(Init(pieces)) + [k]
  }

  /** Where `k` first occurs. */
  function FirstAt(words: seq<string>, k: string): (n: nat)
    ensures n <= |words|
    ensures n < |words| <==> k in words
    ensures n < |words| ==> words[n] == k && k !in words[..n]
  {
    if words == [] then 0
    else if k in Init(words) then FirstAt(Init(words), k)
    else if Last(words) == k then |words| - 1 else |words|
  }

  /** `keys` are the different words, each once, in the order of their first occurrence. */
  ghost predicate Deduplicates(keys: seq<string>, words: seq<string>) {
    && (forall i, j :: 0 <= i < j < |keys| ==> keys[i] != keys[j])
    && (forall k :: k in keys <==> k in words)
    && (forall i, j :: 0 <= i < j < |keys| ==> FirstAt(words, keys[i]) < FirstAt(words, keys[j]))
  }

  lemma FirstStays(words: seq<string>, k: string, x: string)
    requires x in words
    ensures FirstAt(words + [k], x) == FirstAt(words, x)
  {
    assert Init(words + [k]) == words;
  }

  lemma KnownWord(keys: seq<string>, words: seq<string>, k: string)
    requires Deduplicates(keys, words) && k in keys
    ensures Deduplicates(keys, words + [k])
  {
    forall i, j | 0 <= i < j < |keys| ensures FirstAt(words + [k], keys[i]) < FirstAt(words + [k], keys[j]) {
      FirstStays(words, k, keys[i]);
      FirstStays(words, k, keys[j]);
    }
  }

  lemma NewWord(keys: seq<string>, words: seq<string>, k: string)
    requires Deduplicates(keys, words) && k !in keys
    ensures Deduplicates(keys + [k], words + [k])
  {
    var more, all := words + [k], keys + [k];
    assert Init(more) == words && Last(more) == k;
    assert FirstAt(more, k) == |words|;
    forall i, j | 0 <= i < j < |all| ensures FirstAt(more, all[i]) < FirstAt(more, all[j]) && all[i] != all[j] {
      FirstStays(words, k, keys[i]);
      if j < |keys| {
        FirstStays(words, k, keys[j]);
      }
    }
  }

  lemma OneMoreWord(keys: seq<string>, words: seq<string>, k: string)
    requires Deduplicates(keys, words)
    ensures Deduplicates(if k in keys then keys else keys + [k], words + [k])
  {
    if k in keys {
      KnownWord(keys, words, k);
    } else {
      NewWord(keys, words, k);
    }
  }

  ghost predicate ReadSoFar(keys: seq<string>, duplicates: nat, words: seq<string>) {
    Deduplicates(keys, words) && |keys| + duplicates == |words|
  }

  lemma {:induction false} GivenAreWords(pieces: seq<string>)
    ensures forall k :: k in Given(pieces) ==> k != ""
  {
    if pieces != [] {
      GivenAreWords(Init(pieces));
    }
  }

  lemma NoneIsNone(keys: seq<string>, words: seq<string>)
    requires Deduplicates(keys, words)
    ensures keys == [] <==> words == []
  {
    if words != [] {
      assert words[0] in words;
    }
    if keys != [] {
      assert keys[0] in keys;
    }
  }

  /** Splits and deduplicates the configured tokens; none at all is an error. */
  method ReadKeys(raw: string) returns (keys: seq<string>, duplicates: nat, ok: bool)
    ensures Deduplicates(keys, Given(Pieces(raw)))
    ensures forall k :: k in keys ==> k != ""
    ensures |keys| + duplicates == |Given(Pieces(raw))|
    ensures ok <==> Given(Pieces(raw)) != []
  {
    var pieces := Pieces(raw);
    keys, duplicates := [], 0;
    for n := 0 to |pieces|
      invariant ReadSoFar(keys, duplicates, Given(pieces[..n]))
    {
      assert Init(pieces[..n + 1]) == pieces[..n];
      var k := Trim(pieces[n]);
      if k != "" {
        OneMoreWord(keys, Given(pieces[..n]), k);
        if k in keys {
          duplicates := duplicates + 1;
        } else {
          keys := keys + [k];
        }
      }
    }
    assert pieces[..|pieces|] == pieces;
    ok := keys != [];
    NoneIsNone(keys, Given(pieces));
    GivenAreWords(pieces);
  }

  /** No piece holds a comma, a semicolon or a space. */
  lemma {:induction false} PiecesAreSolid(raw: string)
    ensures forall p, c :: p in Pieces(raw) && c in p ==> c != ',' && c != ';' && !IsSpace(c)
  {
    if raw != "" {
      PiecesAreSolid(raw[1..]);
    }
  }

  /** Pieces with separators between them. */
  function Weave(pieces: seq<string>, separators: string): string
    requires |pieces| == |separators| + 1
  {
    if separators == "" then pieces[0] else pieces[0] + [separators[0]] + Weave(pieces[1..], separators[1..])
  }

  /** The pieces are the raw text, cut at its commas, semicolons and spaces: nothing else is lost. */
  lemma {:induction false} PiecesRejoin(raw: string) returns (separators: string)
    ensures |Pieces(raw)| == |separators| + 1 && Weave(Pieces(raw), separators) == raw
    ensures forall c :: c in separators ==> c == ',' || c == ';' || IsSpace(c)
  {
    if raw == "" {
      separators := "";
    } else {
      var rest := PiecesRejoin(raw[1..]);
      var pieces := Pieces(raw[1..]);
      assert raw == [raw[0]] + raw[1..];
      if IsSeparator(raw[0]) {
        separators := [raw[0]] + rest;
        assert ([""] + pieces)[1..] == pieces && separators[1..] == rest;
      } else {
        separators := rest;
        var first := [raw[0]] + pieces[0];
        assert ([first] + pieces[1..])[1..] == pieces[1..];
      }
    }
  }

  /** The pieces that are not empty, in order. */
  function NonEmpty(pieces: seq<string>): seq<string> {
    if pieces == [] then []
    else NonEmpty(Init(pieces)) + if Last(pieces) == "" then [] else [Last(pieces)]
  }

  lemma {:induction false} SolidAreGiven(pieces: seq<string>)
    requires forall p :: p in pieces ==> Solid(p)
    ensures Given(pieces) == NonEmpty(pieces)
  {
    if pieces != [] {
      SolidAreGiven(Init(pieces));
      var p := Last(pieces);
      if p != "" {
        assert "" + p + "" == p;
        TrimWord("", p, "");
      }
    }
  }

  /** The tokens given are the pieces that are not empty: trimming them changes nothing. */
  lemma TokensAreThePieces(raw: string)
    ensures Given(Pieces(raw)) == NonEmpty(Pieces(raw))
  {
    PiecesAreSolid(raw);
    SolidAreGiven(Pieces(raw));
  }

  // ----- per token ------------------------------------------------------------------------------------------

  /** Sends with the given token, over the first `n` keys, in the interval [from, to). */
  ghost function TokenSends(ks: Keys, window: nat, es: seq<Event>, tokens: seq<string>, token: string,
                            from: Time, to: Time, n: nat): nat
    requires n <= |ks| == |tokens|
  {
    if n == 0 then 0 else
      TokenSends(ks, window, es, tokens, token, from, to, n - 1) +
      if tokens[n - 1] == token then CountIn(SendsOf(ks, window, es, n - 1), from, to) else 0
  }

  lemma {:induction false} TokenIsOneKey(ks: Keys, window: nat, es: seq<Event>, tokens: seq<string>, i: nat,
                                         from: Time, to: Time, n: nat)
    requires n <= |ks| == |tokens| && i < |ks|
    requires forall a, b :: 0 <= a < b < |tokens| ==> tokens[a] != tokens[b]
    ensures TokenSends(ks, window, es, tokens, tokens[i], from, to, n) ==
            if i < n then CountIn(SendsOf(ks, window, es, i), from, to) else 0
  {
    if n > 0 {
      TokenIsOneKey(ks, window, es, tokens, i, from, to, n - 1);
    }
  }

  /** Because tokens are different, the window bound on a key bounds all sends with its token. */
  lemma TokenWindowSafety(ks: Keys, window: nat, es: seq<Event>, tokens: seq<string>, words: seq<string>, i: nat, from: Time)
    requires window > 0 && Unused(ks) && Timely(es) && i < |ks| == |tokens| && Deduplicates(tokens, words)
    ensures var log := SendsOf(ks, window, es, i);
            var sent := TokenSends(ks, window, es, tokens, tokens[i], from, from + window, |ks|);
            sent == 0 || exists l: nat :: LastInWindow(log, from, window, l) && sent <= log[l].limit
  {
    TokenIsOneKey(ks, window, es, tokens, i, from, from + window, |ks|);
    SlidingWindowSafety(ks, window, es, i, from);
  }
}
