/** String and value helpers with the semantics of the JavaScript and Python
    operations the routes use: `x || fallback` on optional strings,
    `split(sep)` / `pop()`, ASCII `toLowerCase()`, decimal rendering of a
    non-negative integer, and Python's `str.strip()`. */
module Text {

  datatype Option<+T> = None | Some(value: T)

  /** JavaScript truthiness of a string that may be missing (`null`): present and non-empty. */
  predicate Truthy(s: Option<string>) {
    s.Some? && s.value != ""
  }

  /** `s || fallback` where `s` is a possibly-missing string. */
  function OrDefault(s: Option<string>, fallback: string): (r: string)
    ensures Truthy(s) ==> r == s.value
    ensures !Truthy(s) ==> r == fallback
    ensures fallback != "" ==> r != ""
  {
    if Truthy(s) then s.value else fallback
  }

  // ---------------------------------------------------------------------------
  // split / join

  /** `s.split(sep)` for a one-character separator: the pieces between
      separators, in order; an empty string gives one empty piece. */
  function Split(s: string, sep: char): (pieces: seq<string>)
    ensures |pieces| >= 1
    ensures forall i :: 0 <= i < |pieces| ==> sep !in pieces[i]
    decreases |s|
  {
    if s == [] then [""]
    else
      var init := Split(s[..|s| - 1], sep);
      var c := s[|s| - 1];
      if c == sep then init + [""]
      else init[..|init| - 1] + [init[|init| - 1] + [c]]
  }

  /** The pieces joined with `sep` between neighbours. */
  function Join(pieces: seq<string>, sep: char): string
    decreases |pieces|
  {
    if |pieces| == 0 then ""
    else if |pieces| == 1 then pieces[0]
    else Join(pieces[..|pieces| - 1], sep) + [sep] + pieces[|pieces| - 1]
  }

  /** `arr.pop()` on a non-empty array: its last element. */
  function Last<T>(xs: seq<T>): T
    requires |xs| > 0
  {
    xs[|xs| - 1]
  }

  /** The last piece of `s.split(sep)` is the text after the last `sep`,
      or all of `s` when `s` has no `sep`. */
  lemma {:induction false} LastPieceIsAfterLastSeparator(s: string, sep: char)
    ensures var e := Last(Split(s, sep));
      && |e| <= |s|
      && e == s[|s| - |e|..]
      && sep !in e
      && (|e| < |s| ==> s[|s| - |e| - 1] == sep)
      && (|e| == |s| ==> sep !in s)
    decreases |s|
  {
    if s != [] {
      var t := s[..|s| - 1];
      var c := s[|s| - 1];
      LastPieceIsAfterLastSeparator(t, sep);
      var e := Last(Split(s, sep));
      if c != sep {
        var et := Last(Split(t, sep));
        assert e == et + [c];
        assert s == t + [c];
        if |et| == |t| {
          assert sep !in s by {
            forall i | 0 <= i < |s| ensures s[i] != sep {
              if i < |t| { assert s[i] == t[i]; }
            }
          }
        }
      }
    }
  }

  /** Splitting a piece that has no separator, appended to `t`, only extends the last piece of `t`'s split. */
  lemma {:induction false} SplitAppendPlain(t: string, w: string, sep: char)
    requires sep !in w
    ensures var p := Split(t, sep);
      Split(t + w, sep) == p[..|p| - 1] + [Last(p) + w]
    decreases |w|
  {
    var p := Split(t, sep);
    if w == [] {
      assert t + w == t;
      assert Last(p) + w == Last(p);
      assert p[..|p| - 1] + [Last(p)] == p;
    } else {
      var w', c := w[..|w| - 1], w[|w| - 1];
      assert c != sep by { assert c in w; }
      assert sep !in w' by { assert forall k :: 0 <= k < |w'| ==> w'[k] == w[k]; }
      SplitAppendPlain(t, w', sep);
      SplitAppendChar(t + w', c, sep);
      ExtendLast(p[..|p| - 1], Last(p) + w', [c]);
      AppendLastChar(t, w);
      AppendLastChar(Last(p), w);
    }
  }

  lemma AppendLastChar(a: string, w: string)
    requires w != []
    ensures a + w == (a + w[..|w| - 1]) + [w[|w| - 1]]
  {
    assert w == w[..|w| - 1] + [w[|w| - 1]];
  }

  /** A character other than the separator extends the last piece. */
  lemma SplitAppendChar(u: string, c: char, sep: char)
    requires c != sep
    ensures var q := Split(u, sep);
      Split(u + [c], sep) == q[..|q| - 1] + [Last(q) + [c]]
  {
    assert (u + [c])[..|u|] == u;
  }

  lemma ExtendLast(pre: seq<string>, x: string, y: string)
    ensures var q := pre + [x];
      q[..|q| - 1] + [Last(q) + y] == pre + [x + y]
  {
    var q := pre + [x];
    assert q[..|q| - 1] == pre;
  }

  /** A string without the separator splits into itself. */
  lemma SplitPlain(w: string, sep: char)
    requires sep !in w
    ensures Split(w, sep) == [w]
  {
    SplitAppendPlain("", w, sep);
    assert "" + w == w;
  }

  /** A separator followed by a separator-free tail adds the tail as the last piece. */
  lemma SplitAfterSeparator(t: string, w: string, sep: char)
    requires sep !in w
    ensures Split(t + [sep] + w, sep) == Split(t, sep) + [w]
  {
    var u := t + [sep];
    assert u[..|u| - 1] == t;
    assert Split(u, sep) == Split(t, sep) + [""];
    SplitAppendPlain(u, w, sep);
    var p := Split(u, sep);
    assert p[..|p| - 1] == Split(t, sep);
    assert "" + w == w;
  }

  /** Splitting the join of separator-free pieces gives the pieces back. */
  lemma {:induction false} SplitJoin(pieces: seq<string>, sep: char)
    requires |pieces| >= 1
    requires forall i :: 0 <= i < |pieces| ==> sep !in pieces[i]
    ensures Split(Join(pieces, sep), sep) == pieces
    decreases |pieces|
  {
    var w := Last(pieces);
    if |pieces| == 1 {
      SplitPlain(w, sep);
    } else {
      var init := pieces[..|pieces| - 1];
      SplitJoin(init, sep);
      SplitAfterSeparator(Join(init, sep), w, sep);
      assert pieces == init + [w];
    }
  }

  // ---------------------------------------------------------------------------
  // characters

  predicate IsUpperAscii(c: char) { 'A' <= c <= 'Z' }

  predicate IsLetter(c: char) { 'A' <= c <= 'Z' || 'a' <= c <= 'z' }

  predicate IsDigit(c: char) { '0' <= c <= '9' }

  /** `toLowerCase()` restricted to ASCII: A-Z become a-z, every other character is kept. */
  function LowerAscii(s: string): (r: string)
    ensures |r| == |s|
    ensures forall i :: 0 <= i < |s| ==> !IsUpperAscii(r[i])
    ensures forall i :: 0 <= i < |s| ==>
      r[i] == if IsUpperAscii(s[i]) then (s[i] as int + 32) as char else s[i]
  {
    seq(|s|, i requires 0 <= i < |s| =>
      if IsUpperAscii(s[i]) then (s[i] as int + 32) as char else s[i])
  }

  /** The decimal text of a non-negative integer, as `${n}` renders a whole number. */
  function Decimal(n: nat): (r: string)
    ensures |r| >= 1
    ensures forall i :: 0 <= i < |r| ==> IsDigit(r[i])
    ensures |r| > 1 ==> r[0] != '0'
  {
    if n < 10 then [('0' as int + n) as char]
    else Decimal(n / 10) + [('0' as int + n % 10) as char]
  }

  function DigitValue(c: char): nat
    requires IsDigit(c)
  {
    c as int - '0' as int
  }

  /** Reads a string of decimal digits. */
  function DigitsValue(s: string): nat
    requires forall i :: 0 <= i < |s| ==> IsDigit(s[i])
  {
    if s == [] then 0
    else DigitsValue(s[..|s| - 1]) * 10 + DigitValue(s[|s| - 1])
  }

  /** Reading the decimal text of `n` gives `n` back. */
  lemma {:induction false} DecimalRoundTrip(n: nat)
    ensures DigitsValue(Decimal(n)) == n
  {
    var d := Decimal(n);
    if n >= 10 {
      DecimalRoundTrip(n / 10);
      assert d[..|d| - 1] == Decimal(n / 10);
    }
  }

  // ---------------------------------------------------------------------------
  // Python str.strip()

  /** The characters Python's `str.isspace()` accepts, which `strip()` removes. */
  predicate IsPyWhitespace(c: char) {
    || 9 <= c as int <= 13
    || 28 <= c as int <= 32
    || c as int == 0x85 || c as int == 0xA0 || c as int == 0x1680
    || 0x2000 <= c as int <= 0x200A
    || c as int == 0x2028 || c as int == 0x2029 || c as int == 0x202F
    || c as int == 0x205F || c as int == 0x3000
  }

  /** The end of the run of whitespace that starts at `i`. */
  function WhitespaceFrom(s: string, i: nat): (k: nat)
    requires i <= |s|
    ensures i <= k <= |s|
    ensures forall j :: i <= j < k ==> IsPyWhitespace(s[j])
    ensures k == |s| || !IsPyWhitespace(s[k])
    decreases |s| - i
  {
    if i < |s| && IsPyWhitespace(s[i]) then WhitespaceFrom(s, i + 1) else i
  }

  /** The start of the run of whitespace that ends at `j`. */
  function WhitespaceBefore(s: string, j: nat): (k: nat)
    requires j <= |s|
    ensures k <= j
    ensures forall i :: k <= i < j ==> IsPyWhitespace(s[i])
    ensures k == 0 || !IsPyWhitespace(s[k - 1])
  {
    if j > 0 && IsPyWhitespace(s[j - 1]) then WhitespaceBefore(s, j - 1) else j
  }

  /** Drops leading whitespace. */
  function TrimStart(s: string): (r: string)
    ensures |r| <= |s| && r == s[|s| - |r|..]
    ensures forall i :: 0 <= i < |s| - |r| ==> IsPyWhitespace(s[i])
    ensures r == [] || !IsPyWhitespace(r[0])
  {
    s[WhitespaceFrom(s, 0)..]
  }

  /** Drops trailing whitespace. */
  function TrimEnd(s: string): (r: string)
    ensures |r| <= |s| && r == s[..|r|]
    ensures forall i :: |r| <= i < |s| ==> IsPyWhitespace(s[i])
    ensures r == [] || !IsPyWhitespace(r[|r| - 1])
  {
    s[..WhitespaceBefore(s, |s|)]
  }

  /** `s.strip()`: the longest middle part of `s` that neither starts nor ends with whitespace. */
  function Strip(s: string): (r: string)
    ensures r == [] || (!IsPyWhitespace(r[0]) && !IsPyWhitespace(r[|r| - 1]))
  {
    TrimEnd(TrimStart(s))
  }
}
