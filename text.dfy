/**
 * The JavaScript string operations the client relies on: `String.prototype.trimEnd`,
 * `Array.prototype.join`, `String.prototype.includes` with a start position, and
 * splitting a comma list the way a server reads the lists of a JOIN.
 */
module Text {

  /**
   * The WhiteSpace and LineTerminator code points of ECMAScript, which `trimEnd`
   * removes: TAB, LF, VT, FF, CR, SPACE, NBSP, U+1680, U+2000 to U+200A, LS, PS,
   * U+202F, U+205F, U+3000 and the byte order mark U+FEFF.
   */
  predicate IsJsWhitespace(c: char) {
    || c == '\t' || c == '\n' || c == '\U{000B}' || c == '\U{000C}' || c == '\r'
    || c == ' ' || c == '\U{00A0}' || c == '\U{1680}'
    || ('\U{2000}' <= c <= '\U{200A}')
    || c == '\U{2028}' || c == '\U{2029}' || c == '\U{202F}' || c == '\U{205F}'
    || c == '\U{3000}' || c == '\U{FEFF}'
  }

  /**
   * `s.trimEnd()`: the longest prefix of `s` that does not end in whitespace;
   * everything it drops is whitespace.
   */
  function TrimEnd(s: string): (r: string)
    ensures r <= s
    ensures forall i :: |r| <= i < |s| ==> IsJsWhitespace(s[i])
    ensures r == [] || !IsJsWhitespace(r[|r| - 1])
    decreases |s|
  {
    if |s| > 0 && IsJsWhitespace(s[|s| - 1]) then TrimEnd(s[..|s| - 1]) else s
  }

  /** Appending whitespace to a string does not change what `trimEnd` leaves of it. */
  lemma {:induction false} TrimEndIgnoresTrailingWhitespace(s: string, w: string)
    requires forall i :: 0 <= i < |w| ==> IsJsWhitespace(w[i])
    ensures TrimEnd(s + w) == TrimEnd(s)
    decreases |w|
  {
    if w != [] {
      var w' := w[..|w| - 1];
      assert (s + w)[..|s + w| - 1] == s + w';
      TrimEndIgnoresTrailingWhitespace(s, w');
    } else {
      assert s + w == s;
    }
  }

  /** `xs.join(sep)`. */
  function Join(xs: seq<string>, sep: string): string
  {
    if |xs| == 0 then ""
    else if |xs| == 1 then xs[0]
    else xs[0] + sep + Join(xs[1..], sep)
  }

  /** The total length of a list of strings. */
  function TotalLength(xs: seq<string>): nat
  {
    if xs == [] then 0 else |xs[0]| + TotalLength(xs[1..])
  }

  /**
   * What `join` produces: nothing for no elements; otherwise the first element
   * at the front, the last at the back, and every element plus one separator
   * between each pair in its length.
   */
  lemma {:induction false} JoinLayout(xs: seq<string>, sep: string)
    ensures xs == [] ==> Join(xs, sep) == ""
    ensures xs != [] ==>
      var r := Join(xs, sep);
      && |r| == TotalLength(xs) + (|xs| - 1) * |sep|
      && |xs[0]| <= |r| && |xs[|xs| - 1]| <= |r|
      && r[..|xs[0]|] == xs[0]
      && r[|r| - |xs[|xs| - 1]|..] == xs[|xs| - 1]
    decreases |xs|
  {
    if |xs| == 1 {
      assert xs[1..] == [];
    } else if |xs| > 1 {
      var rest := Join(xs[1..], sep);
      JoinLayout(xs[1..], sep);
      assert Join(xs, sep) == xs[0] + (sep + rest);
      assert xs[1..][|xs[1..]| - 1] == xs[|xs| - 1];
    }
  }

  /** Joining one more element appends the separator and that element. */
  lemma {:induction false} JoinSnoc(xs: seq<string>, x: string, sep: string)
    requires xs != []
    ensures Join(xs + [x], sep) == Join(xs, sep) + sep + x
    decreases |xs|
  {
    if |xs| == 1 {
      assert xs + [x] == [xs[0], x];
    } else {
      assert (xs + [x])[1..] == xs[1..] + [x];
      JoinSnoc(xs[1..], x, sep);
    }
  }

  /** `s.startsWith(c)` for a single character, that is `s[0] === c`. */
  predicate StartsWith(s: string, c: char) {
    |s| > 0 && s[0] == c
  }

  /** `s.includes(c, from)` for a single character. */
  predicate IncludesFrom(s: string, c: char, from: nat) {
    exists i :: from <= i < |s| && s[i] == c
  }

  /** The index of the first `c` in `s`, if any. */
  function IndexOf(s: string, c: char): (r: nat)
    ensures r <= |s|
    ensures forall i :: 0 <= i < r ==> s[i] != c
    ensures r < |s| ==> s[r] == c
  {
    if s == [] then 0
    else if s[0] == c then 0
    else 1 + IndexOf(s[1..], c)
  }

  /** `s.split(c)`: the fields between the occurrences of `c`, empty fields included. */
  function Split(s: string, c: char): (r: seq<string>)
    ensures |r| >= 1
    decreases |s|
  {
    var i := IndexOf(s, c);
    if i == |s| then [s] else [s[..i]] + Split(s[i + 1..], c)
  }

  /**
   * Splitting a joined list on its one-character separator gives the list back,
   * when no element contains the separator.
   */
  lemma {:induction false} SplitJoin(xs: seq<string>, c: char)
    requires xs != []
    requires forall k, i :: 0 <= k < |xs| && 0 <= i < |xs[k]| ==> xs[k][i] != c
    ensures Split(Join(xs, [c]), c) == xs
    decreases |xs|
  {
    if |xs| == 1 {
      assert IndexOf(xs[0], c) == |xs[0]|;
    } else {
      SplitJoinStep(xs, c);
      SplitJoin(xs[1..], c);
      assert xs == [xs[0]] + xs[1..];
    }
  }

  /** One step of `SplitJoin`: the first field is the first element, the rest is the joined tail. */
  lemma SplitJoinStep(xs: seq<string>, c: char)
    requires |xs| > 1
    requires forall i :: 0 <= i < |xs[0]| ==> xs[0][i] != c
    ensures Split(Join(xs, [c]), c) == [xs[0]] + Split(Join(xs[1..], [c]), c)
  {
    var s := Join(xs, [c]);
    var rest := Join(xs[1..], [c]);
    assert s == xs[0] + ([c] + rest);
    assert IndexOf(s, c) == |xs[0]| by {
      IndexOfPrefix(xs[0], [c] + rest, c);
    }
    assert s[..|xs[0]|] == xs[0];
    assert s[|xs[0]| + 1..] == rest;
  }

  /** The first `c` of `a + b` is that of `b`, shifted, when `a` has none. */
  lemma {:induction false} IndexOfPrefix(a: string, b: string, c: char)
    requires forall i :: 0 <= i < |a| ==> a[i] != c
    requires StartsWith(b, c)
    ensures IndexOf(a + b, c) == |a|
    decreases |a|
  {
    if a != [] {
      assert (a + b)[1..] == a[1..] + b;
      IndexOfPrefix(a[1..], b, c);
    }
  }

  /** The digit character for `d`. */
  function DigitChar(d: nat): (c: char)
    requires d < 10
    ensures '0' <= c <= '9' && c as int - '0' as int == d
  {
    ('0' as int + d) as char
  }

  /** The decimal digits of `n`, most significant first, without leading zeros. */
  function NatToString(n: nat): (s: string)
    ensures |s| >= 1
    ensures forall i :: 0 <= i < |s| ==> '0' <= s[i] <= '9'
    ensures s[0] == '0' ==> n == 0
    decreases n
  {
    if n < 10 then [DigitChar(n)] else NatToString(n / 10) + [DigitChar(n % 10)]
  }

  /** The number a string of decimal digits denotes. */
  function DigitsValue(s: string): nat
    requires forall i :: 0 <= i < |s| ==> '0' <= s[i] <= '9'
    decreases |s|
  {
    if s == [] then 0 else 10 * DigitsValue(s[..|s| - 1]) + (s[|s| - 1] as int - '0' as int)
  }

  /** Reading back the digits of `n` gives `n`. */
  lemma {:induction false} NatToStringValue(n: nat)
    ensures DigitsValue(NatToString(n)) == n
    decreases n
  {
    if n >= 10 {
      var s := NatToString(n);
      assert s[..|s| - 1] == NatToString(n / 10);
      NatToStringValue(n / 10);
    }
  }

  /**
   * The text of an integer in a template literal, for integers whose magnitude
   * is below 10^21 (larger ones are written in exponent form): the decimal
   * digits, after '-' when negative, without leading zeros.
   */
  function NumberToString(n: int): (s: string)
    ensures n >= 0 ==> s == NatToString(n)
    ensures n >= 0 ==> DigitsValue(s) == n
    ensures n < 0 ==> |s| >= 2 && s[0] == '-' && s[1] != '0'
    ensures n < 0 ==> (forall i :: 1 <= i < |s| ==> '0' <= s[i] <= '9') && DigitsValue(s[1..]) == -n
  {
    if n < 0 then
      NatToStringValue(-n);
      assert ("-" + NatToString(-n))[1..] == NatToString(-n);
      "-" + NatToString(-n)
    else
      NatToStringValue(n);
      NatToString(n)
  }
}
