/**
 * The whitespace tokenizer of the legacy test utilities (`mock_tokenizer`).
 *
 * `re.split(r"[ \n]", text)` cuts the text at every space and every newline;
 * each piece is stripped of surrounding whitespace (Python's `str.strip()`),
 * pieces that strip to "" are dropped, and the rest are kept in order.
 */
module MockUtils {

  /** The characters for which Python's `str.isspace()` holds; `str.strip()` removes them. */
  predicate IsWhitespace(c: char) {
    || c == ' '
    || ('\t' <= c <= '\r')                   // \t \n \v \f \r
    || ('\U{1c}' <= c <= '\U{1f}')           // file, group, record and unit separators
    || c == '\U{85}' || c == '\U{a0}' || c == '\U{1680}'
    || ('\U{2000}' <= c <= '\U{200a}')
    || c == '\U{2028}' || c == '\U{2029}' || c == '\U{202f}' || c == '\U{205f}' || c == '\U{3000}'
  }

  /** The character class `[ \n]` the text is split on. */
  predicate IsSeparator(c: char) {
    c == ' ' || c == '\n'
  }

  predicate NoSeparator(s: string) {
    forall i :: 0 <= i < |s| ==> !IsSeparator(s[i])
  }

  predicate AllWhitespace(s: string) {
    forall i :: 0 <= i < |s| ==> IsWhitespace(s[i])
  }

  /** Number of split characters in `s`. */
  function SeparatorCount(s: string): nat {
    if s == [] then 0 else (if IsSeparator(s[0]) then 1 else 0) + SeparatorCount(s[1..])
  }

  // ---------------------------------------------------------------------------
  // str.strip()
  // ---------------------------------------------------------------------------

  /** Number of whitespace characters `s.lstrip()` removes from the front of `s`. */
  function LeadingWhitespace(s: string): (n: nat)
    ensures n <= |s|
    ensures forall i :: 0 <= i < n ==> IsWhitespace(s[i])
    ensures n < |s| ==> !IsWhitespace(s[n])
  {
    if s != [] && IsWhitespace(s[0]) then
      var n := LeadingWhitespace(s[1..]);
      assert forall i :: 1 <= i < n + 1 ==> s[i] == s[1..][i - 1];
      1 + n
    else 0
  }

  /** Number of whitespace characters `s.rstrip()` removes from the end of `s`. */
  function TrailingWhitespace(s: string): (n: nat)
    ensures n <= |s|
    ensures forall i :: |s| - n <= i < |s| ==> IsWhitespace(s[i])
    ensures n < |s| ==> !IsWhitespace(s[|s| - n - 1])
  {
    if s != [] && IsWhitespace(s[|s| - 1]) then
      var init := s[..|s| - 1];
      var n := TrailingWhitespace(init);
      assert forall i :: |s| - 1 - n <= i < |s| - 1 ==> s[i] == init[i];
      1 + n
    else 0
  }

  /**
   * `s.strip()`: the contiguous part of `s` between its leading and trailing
   * whitespace. The contract determines the result: `s` is its leading
   * whitespace, then `r`, then only whitespace, and `r` is empty or neither
   * starts nor ends with whitespace.
   */
  function Strip(s: string): (r: string)
    ensures LeadingWhitespace(s) + |r| <= |s| && r == s[LeadingWhitespace(s)..LeadingWhitespace(s) + |r|]
    ensures r == [] <==> AllWhitespace(s)
    ensures r != [] ==> !IsWhitespace(r[0]) && !IsWhitespace(r[|r| - 1])
    ensures AllWhitespace(s[LeadingWhitespace(s) + |r|..])
  {
    var lo := LeadingWhitespace(s);
    if lo == |s| then []
    else
      var t := TrailingWhitespace(s);
      // the trailing run stops before the first character that is not whitespace
      assert !IsWhitespace(s[lo]) && t < |s| - lo;
      var r := s[lo..|s| - t];
      assert r[0] == s[lo] && r[|r| - 1] == s[|s| - t - 1];
      r
  }

  /** Stripping a string whose ends are not whitespace leaves it as it is. */
  lemma StripKeepsTrimmed(s: string)
    requires s != [] && !IsWhitespace(s[0]) && !IsWhitespace(s[|s| - 1])
    ensures Strip(s) == s
  {
  }

  /** `strip` is idempotent. */
  lemma StripIdempotent(s: string)
    ensures Strip(Strip(s)) == Strip(s)
  {
    var r := Strip(s);
    if r != [] {
      StripKeepsTrimmed(r);
    }
  }

  // ---------------------------------------------------------------------------
  // re.split(r"[ \n]", text)
  // ---------------------------------------------------------------------------

  /** Index of the first split character of `s`, or `|s|` when there is none. */
  function FirstSeparator(s: string): (i: nat)
    ensures i <= |s|
    ensures i < |s| ==> IsSeparator(s[i])
    ensures NoSeparator(s[..i])
  {
    if s == [] || IsSeparator(s[0]) then 0 else 1 + FirstSeparator(s[1..])
  }

  /**
   * `re.split(r"[ \n]", s)`: the runs of `s` between split characters, in order,
   * empty runs included (so there is always one piece more than there are
   * split characters).
   */
  function Split(s: string): (pieces: seq<string>)
    ensures |pieces| == SeparatorCount(s) + 1
    ensures forall k :: 0 <= k < |pieces| ==> NoSeparator(pieces[k])
    ensures NoSeparator(s) ==> pieces == [s]
    decreases |s|
  {
    var i := FirstSeparator(s);
    assert NoSeparator(s) ==> i == |s|;
    if i == |s| then
      NoSeparatorCount(s);
      [s]
    else
      SeparatorCountSplit(s, i);
      [s[..i]] + Split(s[i + 1..])
  }

  lemma {:induction false} NoSeparatorCount(s: string)
    requires NoSeparator(s)
    ensures SeparatorCount(s) == 0
  {
    if s != [] {
      NoSeparatorCount(s[1..]);
    }
  }

  /** Counting split characters across the first one at index `i`. */
  lemma {:induction false} SeparatorCountSplit(s: string, i: nat)
    requires i < |s| && IsSeparator(s[i]) && NoSeparator(s[..i])
    ensures SeparatorCount(s) == 1 + SeparatorCount(s[i + 1..])
  {
    if i > 0 {
      assert s[1..][..i - 1] == s[1..i];
      assert s[1..][i..] == s[i + 1..];
      SeparatorCountSplit(s[1..], i - 1);
    }
  }

  /** Splitting at a split character `c` splits the two sides independently. */
  lemma {:induction false} SplitAppend(a: string, c: char, b: string)
    requires IsSeparator(c)
    ensures Split(a + [c] + b) == Split(a) + Split(b)
    decreases |a|
  {
    var s := a + [c] + b;
    var i := FirstSeparator(s);
    var j := FirstSeparator(a);
    FirstSeparatorOfAppend(a, c, b);
    if j == |a| {
      assert i == |a|;
      assert s[..i] == a && s[i + 1..] == b;
    } else {
      assert i == j;
      assert s[..i] == a[..j];
      assert s[i + 1..] == a[j + 1..] + [c] + b;
      SplitAppend(a[j + 1..], c, b);
    }
  }

  lemma {:induction false} FirstSeparatorOfAppend(a: string, c: char, b: string)
    requires IsSeparator(c)
    ensures FirstSeparator(a + [c] + b) == FirstSeparator(a)
  {
    if a != [] {
      assert (a + [c] + b)[1..] == a[1..] + [c] + b;
      FirstSeparatorOfAppend(a[1..], c, b);
    }
  }

  // ---------------------------------------------------------------------------
  // The tokenizer
  // ---------------------------------------------------------------------------

  /** What the loop appends for one piece: its strip, unless that is empty. */
  function Kept(piece: string): seq<string> {
    if Strip(piece) == "" then [] else [Strip(piece)]
  }

  /** A token as the tokenizer produces it: non-empty, trimmed, with no split character. */
  predicate IsToken(t: string) {
    t != [] && !IsWhitespace(t[0]) && !IsWhitespace(t[|t| - 1]) && NoSeparator(t)
  }

  /** The loop of `mock_tokenizer` over a list of pieces, as a value. */
  function KeepAll(pieces: seq<string>): (tokens: seq<string>)
    ensures |tokens| <= |pieces|
  {
    if pieces == [] then [] else KeepAll(pieces[..|pieces| - 1]) + Kept(pieces[|pieces| - 1])
  }

  /** The strip of a piece without split characters has none either. */
  lemma StripNoSeparator(piece: string)
    requires NoSeparator(piece)
    ensures NoSeparator(Strip(piece))
  {
    var r := Strip(piece);
    forall i | 0 <= i < |r| ensures r[i] == piece[LeadingWhitespace(piece) + i] { }
  }

  /** Pieces without split characters yield well-formed tokens only. */
  lemma {:induction false} KeepAllTokens(pieces: seq<string>)
    requires forall k :: 0 <= k < |pieces| ==> NoSeparator(pieces[k])
    ensures forall k :: 0 <= k < |KeepAll(pieces)| ==> IsToken(KeepAll(pieces)[k])
  {
    if pieces != [] {
      var init, last := pieces[..|pieces| - 1], pieces[|pieces| - 1];
      assert forall k :: 0 <= k < |init| ==> init[k] == pieces[k];
      KeepAllTokens(init);
      KeptToken(last);
      var a, b := KeepAll(init), Kept(last);
      assert KeepAll(pieces) == a + b;
      forall k | 0 <= k < |a + b| ensures IsToken((a + b)[k]) {
        if k < |a| {
          assert (a + b)[k] == a[k];
        } else {
          assert (a + b)[k] == b[k - |a|];
        }
      }
    }
  }

  /** What one piece without split characters contributes is a well-formed token, if anything. */
  lemma KeptToken(piece: string)
    requires NoSeparator(piece)
    ensures forall k :: 0 <= k < |Kept(piece)| ==> IsToken(Kept(piece)[k])
  {
    StripNoSeparator(piece);
  }

  /** One more piece contributes what the loop appends for it. */
  lemma KeepAllPrefix(pieces: seq<string>, i: nat)
    requires i < |pieces|
    ensures KeepAll(pieces[..i + 1]) == KeepAll(pieces[..i]) + Kept(pieces[i])
  {
    assert pieces[..i + 1][..i] == pieces[..i];
  }

  lemma {:induction false} KeepAllAppend(a: seq<string>, b: seq<string>)
    ensures KeepAll(a + b) == KeepAll(a) + KeepAll(b)
    decreases |b|
  {
    if b == [] {
      assert a + b == a;
    } else {
      var init, last := b[..|b| - 1], b[|b| - 1];
      assert (a + b)[..|a + b| - 1] == a + init;
      assert (a + b)[|a + b| - 1] == last;
      calc {
        KeepAll(a + b);
        KeepAll(a + init) + Kept(last);
        { KeepAllAppend(a, init); }
        KeepAll(a) + KeepAll(init) + Kept(last);
        { AppendAssociates(KeepAll(a), KeepAll(init), Kept(last)); }
        KeepAll(a) + KeepAll(b);
      }
    }
  }

  /** Concatenation associates; stated generically so that no piece's strip is unfolded. */
  lemma AppendAssociates<T>(x: seq<T>, y: seq<T>, z: seq<T>)
    ensures x + y + z == x + (y + z)
  {
  }

  /** The list `mock_tokenizer(text)` returns. */
  function Tokens(text: string): seq<string> {
    KeepAll(Split(text))
  }

  /** Every token is non-empty, not whitespace at either end, and free of split characters. */
  lemma TokensAreTokens(text: string)
    ensures forall k :: 0 <= k < |Tokens(text)| ==> IsToken(Tokens(text)[k])
  {
    KeepAllTokens(Split(text));
  }

  /** Every token equals its own strip. */
  lemma TokensAreStripped(text: string, k: nat)
    requires k < |Tokens(text)|
    ensures Strip(Tokens(text)[k]) == Tokens(text)[k]
  {
    TokensAreTokens(text);
    var t := Tokens(text)[k];
    assert IsToken(t);
    StripKeepsTrimmed(t);
  }

  /** At most one token more than there are split characters. */
  lemma TokensBound(text: string)
    ensures |Tokens(text)| <= SeparatorCount(text) + 1
  {
  }

  /** A text without split characters is at most one token: its strip. */
  lemma TokensOfPiece(a: string)
    requires NoSeparator(a)
    ensures Tokens(a) == Kept(a)
  {
    assert [a][..0] == [];
  }

  /**
   * Order: the tokens of `a + [c] + b` are those of `a` followed by those of `b`
   * when `c` is a split character, so tokens keep their order of appearance.
   */
  lemma TokensAppend(a: string, c: char, b: string)
    requires IsSeparator(c)
    ensures Tokens(a + [c] + b) == Tokens(a) + Tokens(b)
  {
    SplitAppend(a, c, b);
    KeepAllAppend(Split(a), Split(b));
  }

  /** A string around a split character is all whitespace exactly when both sides are. */
  lemma AllWhitespaceAppend(a: string, c: char, b: string)
    requires IsSeparator(c)
    ensures AllWhitespace(a + [c] + b) <==> AllWhitespace(a) && AllWhitespace(b)
  {
    var s := a + [c] + b;
    if AllWhitespace(s) {
      forall k | 0 <= k < |a| ensures IsWhitespace(a[k]) { assert a[k] == s[k]; }
      forall k | 0 <= k < |b| ensures IsWhitespace(b[k]) { assert b[k] == s[|a| + 1 + k]; }
    }
  }

  /** No token comes out exactly when the text is empty or all whitespace. */
  lemma {:induction false} TokensEmptyIff(text: string)
    ensures Tokens(text) == [] <==> AllWhitespace(text)
    decreases |text|
  {
    var i := FirstSeparator(text);
    if i == |text| {
      TokensOfPiece(text);
    } else {
      var a, b := text[..i], text[i + 1..];
      assert text == a + [text[i]] + b;
      TokensAppend(a, text[i], b);
      TokensOfPiece(a);
      TokensEmptyIff(b);
      AllWhitespaceAppend(a, text[i], b);
    }
  }

  /** `" ".join(tokens)` */
  function JoinWithSpace(tokens: seq<string>): string {
    if tokens == [] then ""
    else if |tokens| == 1 then tokens[0]
    else tokens[0] + " " + JoinWithSpace(tokens[1..])
  }

  /** A well-formed token tokenizes to itself. */
  lemma TokensOfToken(t: string)
    requires IsToken(t)
    ensures Tokens(t) == [t]
  {
    StripKeepsTrimmed(t);
    TokensOfPiece(t);
  }

  /** Joining well-formed tokens with spaces and tokenizing gives them back. */
  lemma {:induction false} TokensOfJoin(tokens: seq<string>)
    requires forall k :: 0 <= k < |tokens| ==> IsToken(tokens[k])
    ensures Tokens(JoinWithSpace(tokens)) == tokens
  {
    if tokens == [] {
      assert Split("") == [""];
      assert KeepAll([""]) == KeepAll([]) + Kept("");
    } else if |tokens| == 1 {
      TokensOfToken(tokens[0]);
    } else {
      var t, rest := tokens[0], tokens[1..];
      var joined := JoinWithSpace(rest);
      assert JoinWithSpace(tokens) == t + [' '] + joined;
      TokensOfToken(t);
      TokensOfJoin(rest);
      TokensAppend(t, ' ', joined);
      assert tokens == [t] + rest;
    }
  }

  /** Idempotence: tokenizing the space-join of the tokens gives the same tokens. */
  lemma TokenizeIdempotent(text: string)
    ensures Tokens(JoinWithSpace(Tokens(text))) == Tokens(text)
  {
    TokensAreTokens(text);
    TokensOfJoin(Tokens(text));
  }

  /** `mock_tokenizer`: the loop over the split pieces, appending each non-empty strip. */
  method MockTokenizer(text: string) returns (result: seq<string>)
    ensures result == Tokens(text)
  {
    var tokens := Split(text);
    result := [];
    for i := 0 to |tokens|
      invariant result == KeepAll(tokens[..i])
    {
      var token := tokens[i];
      KeepAllPrefix(tokens, i);
      if Strip(token) == "" {
        continue;
      }
      result := result + [Strip(token)];
    }
    assert tokens[..|tokens|] == tokens;
  }
}
