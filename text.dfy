/** The JavaScript string built-ins the site relies on, with their exact
    semantics: `split` with a one-character separator, `trim`, and the
    whitespace class shared by `trim` and the regular-expression escape `\s`. */
module Text {

  /** ECMAScript WhiteSpace and LineTerminator code points (tab, line feed,
      vertical tab, form feed, carriage return, space, no-break space, the
      Unicode space separators, line and paragraph separators, and the
      byte-order mark). */
  predicate IsSpace(c: char) {
    var n := c as int;
    n == 0x09 || n == 0x0A || n == 0x0B || n == 0x0C || n == 0x0D ||
    n == 0x20 || n == 0xA0 || n == 0x1680 || (0x2000 <= n <= 0x200A) ||
    n == 0x2028 || n == 0x2029 || n == 0x202F || n == 0x205F ||
    n == 0x3000 || n == 0xFEFF
  }

  /** Index of the first `c` in `s`, or `|s|` when there is none. */
  function IndexOf(s: string, c: char): (i: nat)
    ensures i <= |s|
    ensures c !in s[..i]
    ensures i < |s| ==> s[i] == c
  {
    if |s| == 0 then 0
    else if s[0] == c then 0
    else 1 + IndexOf(s[1..], c)
  }

  /** `s.split(sep)`: every separator ends a token, so a leading, trailing or
      doubled separator yields an empty token, and `""` splits into `[""]`. */
  function Split(s: string, sep: char): (r: seq<string>)
    ensures |r| > 0
    ensures forall k | 0 <= k < |r| :: sep !in r[k]
    decreases |s|
  {
    var i := IndexOf(s, sep);
    if i == |s| then [s] else [s[..i]] + Split(s[i + 1..], sep)
  }

  /** A string without the separator is a single token, and only such a
      string is. */
  lemma SplitWhole(s: string, sep: char)
    ensures Split(s, sep) == [s] <==> sep !in s
  {
  }

  /** `parts.join(sep)`, the inverse of `Split`. */
  function Join(parts: seq<string>, sep: char): string {
    if |parts| == 0 then ""
    else if |parts| == 1 then parts[0]
    else parts[0] + [sep] + Join(parts[1..], sep)
  }

  /** Splitting loses nothing: joining the tokens back gives the input. */
  lemma {:induction false} JoinSplit(s: string, sep: char)
    ensures Join(Split(s, sep), sep) == s
    decreases |s|
  {
    var i := IndexOf(s, sep);
    if i < |s| {
      var rest := Split(s[i + 1..], sep);
      JoinSplit(s[i + 1..], sep);
      assert Split(s, sep) == [s[..i]] + rest;
      assert ([s[..i]] + rest)[1..] == rest;
      calc {
        Join(Split(s, sep), sep);
        s[..i] + [sep] + Join(rest, sep);
        s[..i] + [sep] + s[i + 1..];
        { assert s == s[..i] + [s[i]] + s[i + 1..]; }
        s;
      }
    }
  }

  /** `t` is a token of `s`: it holds no separator and occurs in `s` at a
      place bounded on each side by a separator or by an end of `s`. This is
      the reference reading of "`t` is one of the pieces of `s.split(sep)`". */
  ghost predicate IsToken(s: string, sep: char, t: string) {
    sep !in t && exists i, j :: TokenAt(s, sep, t, i, j)
  }

  /** `t` occupies `s[i..j]`, with a separator or an end of `s` on each side. */
  ghost predicate TokenAt(s: string, sep: char, t: string, i: int, j: int) {
    0 <= i <= j <= |s| && s[i..j] == t &&
    (i == 0 || s[i - 1] == sep) && (j == |s| || s[j] == sep)
  }

  /** The pieces of `s.split(sep)` are exactly the tokens of `s`. */
  lemma SplitTokens(s: string, sep: char, t: string)
    ensures t in Split(s, sep) <==> IsToken(s, sep, t)
  {
    if t in Split(s, sep) {
      PiecesAreTokens(s, sep, t);
    }
    if IsToken(s, sep, t) {
      TokensArePieces(s, sep, t);
    }
  }

  lemma {:induction false} PiecesAreTokens(s: string, sep: char, t: string)
    requires t in Split(s, sep)
    ensures IsToken(s, sep, t)
    decreases |s|
  {
    var i := IndexOf(s, sep);
    if i == |s| {
      assert Split(s, sep) == [s];
      assert s[0..|s|] == t;
      assert TokenAt(s, sep, t, 0, |s|);
    } else {
      var s' := s[i + 1..];
      assert Split(s, sep) == [s[..i]] + Split(s', sep);
      if t == s[..i] {
        assert s[0..i] == t;
        assert TokenAt(s, sep, t, 0, i);
      } else {
        assert t in Split(s', sep);
        PiecesAreTokens(s', sep, t);
        var a, b :| TokenAt(s', sep, t, a, b);
        ShiftToken(s, sep, t, i + 1, a, b);
      }
    }
  }

  lemma {:induction false} TokensArePieces(s: string, sep: char, t: string)
    requires IsToken(s, sep, t)
    ensures t in Split(s, sep)
    decreases |s|
  {
    var i := IndexOf(s, sep);
    var a, b :| TokenAt(s, sep, t, a, b);
    if a <= i {
      assert a == 0;
      assert b == i;
      assert Split(s, sep)[0] == t;
    } else {
      var s' := s[i + 1..];
      UnshiftToken(s, sep, t, i + 1, a, b);
      TokensArePieces(s', sep, t);
      assert Split(s, sep) == [s[..i]] + Split(s', sep);
    }
  }

  /** A token of the text after a separator is a token of the whole text. */
  lemma ShiftToken(s: string, sep: char, t: string, k: nat, a: int, b: int)
    requires 0 < k <= |s| && s[k - 1] == sep
    requires TokenAt(s[k..], sep, t, a, b)
    ensures TokenAt(s, sep, t, k + a, k + b)
  {
    assert s[k..][a..b] == s[k + a..k + b];
    assert a > 0 ==> s[k..][a - 1] == s[k + a - 1];
    assert b < |s| - k ==> s[k..][b] == s[k + b];
  }

  /** A token lying after position `k` is a token of the text from `k` on. */
  lemma UnshiftToken(s: string, sep: char, t: string, k: nat, a: int, b: int)
    requires k <= a && TokenAt(s, sep, t, a, b)
    ensures TokenAt(s[k..], sep, t, a - k, b - k)
  {
    assert s[k..][a - k..b - k] == s[a..b];
    assert a - k > 0 ==> s[k..][a - k - 1] == s[a - 1];
    assert b < |s| ==> s[k..][b - k] == s[b];
  }

  /** `s.trimStart()`: drop the leading whitespace. */
  function TrimStart(s: string): (r: string)
    ensures |r| <= |s| && r == s[|s| - |r|..]
    ensures r == [] || !IsSpace(r[0])
    ensures forall k | 0 <= k < |s| - |r| :: IsSpace(s[k])
  {
    if |s| > 0 && IsSpace(s[0]) then TrimStart(s[1..]) else s
  }

  /** `s.trimEnd()`: drop the trailing whitespace. */
  function TrimEnd(s: string): (r: string)
    ensures |r| <= |s| && r == s[..|r|]
    ensures r == [] || !IsSpace(r[|r| - 1])
    ensures forall k | |r| <= k < |s| :: IsSpace(s[k])
  {
    if |s| > 0 && IsSpace(s[|s| - 1]) then TrimEnd(s[..|s| - 1]) else s
  }

  /** `s.trim()`: the slice of `s` left once the whitespace at both ends
      is dropped. It has no whitespace at either end, and it is empty
      exactly when `s` is all whitespace. */
  function Trim(s: string): (r: string)
    ensures |r| <= |s|
    ensures exists a, b | 0 <= a <= b <= |s| :: r == s[a..b] && TrimmedAt(s, a, b)
    ensures r == [] || (!IsSpace(r[0]) && !IsSpace(r[|r| - 1]))
    ensures r == [] <==> forall k | 0 <= k < |s| :: IsSpace(s[k])
  {
    var front := TrimStart(s);
    var r := TrimEnd(front);
    assert r != [] ==> r[0] == front[0];
    TrimIsSlice(s);
    r
  }

  /** Trimming the end after the start leaves a slice of `s` with only
      whitespace outside it. */
  lemma TrimIsSlice(s: string)
    ensures var front := TrimStart(s);
      var a := |s| - |front|;
      var b := a + |TrimEnd(front)|;
      b <= |s| && TrimEnd(front) == s[a..b] && TrimmedAt(s, a, b)
  {
    var front := TrimStart(s);
    var r := TrimEnd(front);
    var a := |s| - |front|;
    assert front == s[a..];
    assert r == front[..|r|];
    assert s[a..][..|r|] == s[a..a + |r|];
    forall k | a + |r| <= k < |s|
      ensures IsSpace(s[k])
    {
      assert s[k] == front[k - a];
    }
  }

  /** Only whitespace lies before index `a` and from index `b` on. */
  predicate TrimmedAt(s: string, a: nat, b: nat)
    requires a <= b <= |s|
  {
    (forall k | 0 <= k < a :: IsSpace(s[k])) && (forall k | b <= k < |s| :: IsSpace(s[k]))
  }
}
