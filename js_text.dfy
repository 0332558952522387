/**
 * The pieces of the JavaScript runtime that the validators and the stores
 * depend on: the whitespace class shared by `\s` and `String.prototype.trim`,
 * `trim`, `toLowerCase`, the `\d` digit class, truthiness of form values and
 * the code-point order standing in for the default `Array.prototype.sort`.
 */
module JsText {
  import opened Wrappers

  /** The characters of ECMAScript's WhiteSpace and LineTerminator productions:
      what `\s` matches and what `trim` removes. */
  predicate IsWhitespace(c: char) {
    || c == '\t' || c == '\n' || c == '\U{000B}' || c == '\U{000C}' || c == '\r'
    || c == ' ' || c == '\U{00A0}' || c == '\U{1680}'
    || ('\U{2000}' <= c <= '\U{200A}')
    || c == '\U{2028}' || c == '\U{2029}' || c == '\U{202F}' || c == '\U{205F}'
    || c == '\U{3000}' || c == '\U{FEFF}'
  }

  predicate AllWhitespace(s: string) {
    forall i :: 0 <= i < |s| ==> IsWhitespace(s[i])
  }

  predicate NoWhitespace(s: string) {
    forall i :: 0 <= i < |s| ==> !IsWhitespace(s[i])
  }

  /** Leading whitespace removed: what is left is a suffix of `s`. */
  function TrimStart(s: string): (r: string)
    ensures |r| <= |s| && r == s[|s| - |r|..]
    ensures AllWhitespace(s[..|s| - |r|])
    ensures r != [] ==> !IsWhitespace(r[0])
  {
    if s != [] && IsWhitespace(s[0]) then
      var r := TrimStart(s[1..]);
      LeadingStep(s, r);
      r
    else s
  }

  /** One more leading whitespace character keeps `TrimStart`'s facts. */
  lemma LeadingStep(s: string, r: string)
    requires s != [] && IsWhitespace(s[0]) && |r| <= |s| - 1
    requires r == s[1..][|s| - 1 - |r|..] && AllWhitespace(s[1..][..|s| - 1 - |r|])
    ensures r == s[|s| - |r|..] && AllWhitespace(s[..|s| - |r|])
  {
    var n := |s| - |r|;
    forall k | 0 <= k < n ensures IsWhitespace(s[..n][k]) {
      if k > 0 {
        assert s[1..][..n - 1][k - 1] == s[k];
      }
    }
  }

  /** Trailing whitespace removed: what is left is a prefix of `s`. */
  function TrimEnd(s: string): (r: string)
    ensures |r| <= |s| && r == s[..|r|]
    ensures AllWhitespace(s[|r|..])
    ensures r != [] ==> !IsWhitespace(r[|r| - 1])
  {
    if s != [] && IsWhitespace(s[|s| - 1]) then
      var r := TrimEnd(s[..|s| - 1]);
      TrailingStep(s, r);
      r
    else s
  }

  /** One more trailing whitespace character keeps `TrimEnd`'s facts. */
  lemma TrailingStep(s: string, r: string)
    requires s != [] && IsWhitespace(s[|s| - 1]) && |r| <= |s| - 1
    requires r == s[..|s| - 1][..|r|] && AllWhitespace(s[..|s| - 1][|r|..])
    ensures r == s[..|r|] && AllWhitespace(s[|r|..])
  {
    var n := |r|;
    forall k | 0 <= k < |s| - n ensures IsWhitespace(s[n..][k]) {
      if n + k < |s| - 1 {
        assert s[..|s| - 1][n..][k] == s[n + k];
      }
    }
  }

  /** `r` is the slice of `s` that starts at `i`, with only whitespace around it. */
  predicate TrimmedAt(s: string, r: string, i: int) {
    && 0 <= i && i + |r| <= |s|
    && r == s[i..i + |r|]
    && AllWhitespace(s[..i])
    && AllWhitespace(s[i + |r|..])
  }

  /** `s.trim()`: the slice of `s` left after removing whitespace at both ends;
      it neither starts nor ends with whitespace. */
  function Trim(s: string): (r: string)
    ensures exists i :: TrimmedAt(s, r, i)
    ensures r != [] ==> !IsWhitespace(r[0]) && !IsWhitespace(r[|r| - 1])
  {
    var t := TrimStart(s);
    var r := TrimEnd(t);
    SuffixPrefixTrimmedAt(s, t, r);
    r
  }

  /** A prefix `r` of a suffix `t` of `s`, with only whitespace cut off at
      each step, is a slice of `s` with only whitespace around it. */
  lemma SuffixPrefixTrimmedAt(s: string, t: string, r: string)
    requires |t| <= |s| && t == s[|s| - |t|..] && AllWhitespace(s[..|s| - |t|])
    requires |r| <= |t| && r == t[..|r|] && AllWhitespace(t[|r|..])
    requires t != [] ==> !IsWhitespace(t[0])
    requires r != [] ==> !IsWhitespace(r[|r| - 1])
    ensures TrimmedAt(s, r, |s| - |t|)
    ensures r != [] ==> !IsWhitespace(r[0]) && !IsWhitespace(r[|r| - 1])
  {
    if r != [] {
      assert r[0] == t[0];
    }
    var i := |s| - |t|;
    assert r == s[i..i + |r|];
    assert s[i + |r|..] == t[|r|..];
  }

  /** `s.trim() === ''` exactly when every character of `s` is whitespace. */
  lemma TrimEmptyIffAllWhitespace(s: string)
    ensures Trim(s) == [] <==> AllWhitespace(s)
  {
    var r := Trim(s);
    var i :| TrimmedAt(s, r, i);
    if r == [] {
      forall k | 0 <= k < |s| ensures IsWhitespace(s[k]) {
        if k < i {
          assert s[..i][k] == s[k];
        } else {
          assert s[i..][k - i] == s[k];
        }
      }
    } else {
      assert r[0] == s[i];
    }
  }

  /** A string without whitespace is its own trim. */
  lemma TrimNoWhitespace(s: string)
    requires NoWhitespace(s)
    ensures Trim(s) == s
  {
    var r := Trim(s);
    var i :| TrimmedAt(s, r, i);
  }

  /** Trimming twice is trimming once. */
  lemma {:induction false} TrimIdempotent(s: string)
    ensures Trim(Trim(s)) == Trim(s)
  {
    var r := Trim(s);
    assert TrimStart(r) == r;
    assert TrimEnd(r) == r;
  }

  /** `TrimmedAt`, character by character. */
  lemma TrimmedAtPointwise(s: string, r: string, i: int)
    requires TrimmedAt(s, r, i)
    ensures forall k :: 0 <= k < i ==> IsWhitespace(s[k])
    ensures forall k :: i + |r| <= k < |s| ==> IsWhitespace(s[k])
    ensures forall k :: 0 <= k < |r| ==> r[k] == s[i + k]
  {
    forall k | 0 <= k < i ensures IsWhitespace(s[k]) {
      assert s[..i][k] == s[k];
    }
    forall k | i + |r| <= k < |s| ensures IsWhitespace(s[k]) {
      assert s[i + |r|..][k - i - |r|] == s[k];
    }
  }

  /** `trim` is the only slice of `s` with whitespace around it and none at
      its ends: any such slice is `Trim(s)`. */
  lemma TrimUnique(s: string, r: string, i: int)
    requires TrimmedAt(s, r, i)
    requires r != [] ==> !IsWhitespace(r[0]) && !IsWhitespace(r[|r| - 1])
    ensures r == Trim(s)
  {
    var t := Trim(s);
    var j :| TrimmedAt(s, t, j);
    TrimmedAtPointwise(s, r, i);
    TrimmedAtPointwise(s, t, j);
    if r != [] {
      assert r[0] == s[i] && r[|r| - 1] == s[i + |r| - 1];
    }
    if t != [] {
      assert t[0] == s[j] && t[|t| - 1] == s[j + |t| - 1];
    }
  }

  /** Whitespace around a text does not change its trim. */
  lemma TrimIgnoresPadding(w1: string, s: string, w2: string)
    requires AllWhitespace(w1) && AllWhitespace(w2)
    ensures Trim(w1 + s + w2) == Trim(s)
  {
    TrimEndStartPadded(w1, s, w2);
  }

  lemma TrimEndStartPadded(w1: string, s: string, w2: string)
    requires AllWhitespace(w1) && AllWhitespace(w2)
    ensures TrimEnd(TrimStart(w1 + s + w2)) == TrimEnd(TrimStart(s))
  {
    if AllWhitespace(s) {
      PaddedBlank(w1, s, w2);
    } else {
      PaddedNonBlank(w1, s, w2);
      TrimEndPadded(TrimStart(s), w2);
    }
  }

  /** Padding an all-whitespace text leaves nothing after `TrimStart`. */
  lemma PaddedBlank(w1: string, s: string, w2: string)
    requires AllWhitespace(w1) && AllWhitespace(s) && AllWhitespace(w2)
    ensures TrimStart(w1 + s + w2) == [] && TrimStart(s) == []
  {
    var p := w1 + s + w2;
    forall k | 0 <= k < |p| ensures IsWhitespace(p[k]) {
      if k < |w1| {
        assert p[k] == w1[k];
      } else if k < |w1| + |s| {
        assert p[k] == s[k - |w1|];
      } else {
        assert p[k] == w2[k - |w1| - |s|];
      }
    }
    TrimStartAllWhitespace(p);
    TrimStartAllWhitespace(s);
  }

  /** `TrimStart` of a text that is not all whitespace, padded on both sides. */
  lemma PaddedNonBlank(w1: string, s: string, w2: string)
    requires AllWhitespace(w1) && !AllWhitespace(s) && AllWhitespace(w2)
    ensures TrimStart(w1 + s + w2) == TrimStart(s) + w2
  {
    assert w1 + s + w2 == w1 + (s + w2);
    TrimStartPadded(w1, s + w2);
    TrimStartAppend(s, w2);
  }

  /** An all-whitespace text has nothing left after `TrimStart`. */
  lemma {:induction false} TrimStartAllWhitespace(s: string)
    requires AllWhitespace(s)
    ensures TrimStart(s) == []
  {
    if s != [] {
      assert AllWhitespace(s[1..]) by {
        forall k | 0 <= k < |s| - 1 ensures IsWhitespace(s[1..][k]) {
          assert s[1..][k] == s[k + 1];
        }
      }
      TrimStartAllWhitespace(s[1..]);
    }
  }

  /** Leading whitespace is dropped by `TrimStart`. */
  lemma {:induction false} TrimStartPadded(w: string, x: string)
    requires AllWhitespace(w)
    ensures TrimStart(w + x) == TrimStart(x)
  {
    if w != [] {
      assert (w + x)[1..] == w[1..] + x;
      TrimStartPadded(w[1..], x);
    } else {
      assert w + x == x;
    }
  }

  /** Trailing whitespace is dropped by `TrimEnd`. */
  lemma {:induction false} TrimEndPadded(x: string, w: string)
    requires AllWhitespace(w)
    ensures TrimEnd(x + w) == TrimEnd(x)
  {
    if w != [] {
      assert (x + w)[..|x + w| - 1] == x + w[..|w| - 1];
      TrimEndPadded(x, w[..|w| - 1]);
    } else {
      assert x + w == x;
    }
  }

  /** Once a non-whitespace character is reached, what follows is kept as is. */
  lemma {:induction false} TrimStartAppend(x: string, w: string)
    requires !AllWhitespace(x)
    ensures TrimStart(x + w) == TrimStart(x) + w
  {
    if IsWhitespace(x[0]) {
      assert (x + w)[1..] == x[1..] + w;
      assert !AllWhitespace(x[1..]) by {
        var k :| 0 <= k < |x| && !IsWhitespace(x[k]);
        assert x[1..][k - 1] == x[k];
      }
      TrimStartAppend(x[1..], w);
    }
  }

  /** The capital letters `toLowerCase` maps in this model: ASCII `A`-`Z` and the
      Latin-1 capitals U+00C0-U+00DE except the multiplication sign U+00D7. */
  predicate IsUpper(c: char) {
    'A' <= c <= 'Z' || ('\U{00C0}' <= c <= '\U{00DE}' && c != '\U{00D7}')
  }

  /** `toLowerCase` of one character. */
  function LowerChar(c: char): char {
    if IsUpper(c) then (c as int + 32) as char else c
  }

  /** `s.toLowerCase()`: same length; every capital becomes its small letter
      (32 code points further on), every other character is kept, and so no
      capital is left. Whitespace, '@' and '.' therefore stay exactly where
      they were. */
  function ToLowerCase(s: string): (r: string)
    ensures |r| == |s|
    ensures forall i :: 0 <= i < |s| && IsUpper(s[i]) ==> r[i] as int == s[i] as int + 32
    ensures forall i :: 0 <= i < |s| && !IsUpper(s[i]) ==> r[i] == s[i]
    ensures forall i :: 0 <= i < |r| ==> !IsUpper(r[i])
    ensures forall i :: 0 <= i < |s| ==> (IsWhitespace(r[i]) <==> IsWhitespace(s[i]))
    ensures forall i :: 0 <= i < |s| ==> (r[i] == '@' <==> s[i] == '@')
    ensures forall i :: 0 <= i < |s| ==> (r[i] == '.' <==> s[i] == '.')
  {
    seq(|s|, i requires 0 <= i < |s| => LowerChar(s[i]))
  }

  /** Lower-casing twice is lower-casing once. */
  lemma ToLowerCaseIdempotent(s: string)
    ensures ToLowerCase(ToLowerCase(s)) == ToLowerCase(s)
  {
    var r := ToLowerCase(s);
    assert forall i :: 0 <= i < |r| ==> LowerChar(r[i]) == r[i];
  }

  /** Lower-casing keeps whitespace where it is, so it commutes with `trim`. */
  lemma TrimToLowerCase(s: string)
    ensures Trim(ToLowerCase(s)) == ToLowerCase(Trim(s))
  {
    TrimStartToLowerCase(s);
    TrimEndToLowerCase(TrimStart(s));
  }

  lemma {:induction false} TrimStartToLowerCase(s: string)
    ensures TrimStart(ToLowerCase(s)) == ToLowerCase(TrimStart(s))
  {
    if s != [] {
      assert ToLowerCase(s)[1..] == ToLowerCase(s[1..]);
      TrimStartToLowerCase(s[1..]);
    }
  }

  lemma {:induction false} TrimEndToLowerCase(s: string)
    ensures TrimEnd(ToLowerCase(s)) == ToLowerCase(TrimEnd(s))
  {
    if s != [] {
      assert ToLowerCase(s)[..|s| - 1] == ToLowerCase(s[..|s| - 1]);
      TrimEndToLowerCase(s[..|s| - 1]);
    }
  }

  /** The `\d` class: the ASCII decimal digits. */
  predicate IsDigit(c: char) {
    '0' <= c <= '9'
  }

  /** `s.replace(/\D/g, '')`: the decimal digits of `s`, in order. */
  function DigitsOf(s: string): (d: string)
    ensures |d| <= |s|
    ensures forall i :: 0 <= i < |d| ==> IsDigit(d[i])
  {
    if s == [] then [] else (if IsDigit(s[0]) then [s[0]] else []) + DigitsOf(s[1..])
  }

  lemma {:induction false} DigitsOfConcat(a: string, b: string)
    ensures DigitsOf(a + b) == DigitsOf(a) + DigitsOf(b)
  {
    if a == [] {
      assert a + b == b;
    } else {
      assert (a + b)[0] == a[0];
      assert (a + b)[1..] == a[1..] + b;
      DigitsOfConcat(a[1..], b);
    }
  }

  /** A character that is not a digit, inserted anywhere, leaves the digits alone. */
  lemma DigitsOfIgnoresNonDigit(pre: string, post: string, c: char)
    requires !IsDigit(c)
    ensures DigitsOf(pre + [c] + post) == DigitsOf(pre + post)
  {
    assert DigitsOf([c]) == [] by {
      assert [c][1..] == [];
    }
    DigitsOfConcat(pre, [c]);
    DigitsOfConcat(pre + [c], post);
    DigitsOfConcat(pre, post);
  }

  /** A string with a digit in it is not all whitespace. */
  lemma {:induction false} DigitsOfNotBlank(s: string)
    requires DigitsOf(s) != []
    ensures !AllWhitespace(s)
  {
    if !IsDigit(s[0]) {
      DigitsOfNotBlank(s[1..]);
      var k :| 0 <= k < |s[1..]| && !IsWhitespace(s[1..][k]);
      assert s[k + 1] == s[1..][k];
    }
  }

  /** A form value as JavaScript sees it. Numbers are integers here. */
  datatype JsValue = Undefined | Null | Boolean(b: bool) | Number(n: int) | Text(s: string)

  /** What `!!value` is for a form value. */
  predicate Truthy(v: JsValue) {
    match v
    case Undefined => false
    case Null => false
    case Boolean(b) => b
    case Number(n) => n != 0
    case Text(s) => s != []
  }

  /** What `!!value` is for a text input, `None` standing for `null` or `undefined`. */
  predicate TextTruthy(v: Option<string>) {
    v.Some? && v.value != []
  }

  /** `a <= b` in lexicographic order of code points. The default
      `Array.prototype.sort` compares UTF-16 code units; the two orders agree
      unless a character above U+FFFF meets one in U+E000-U+FFFF. */
  predicate CodePointLe(a: string, b: string) {
    if a == [] then true
    else if b == [] then false
    else if a[0] != b[0] then a[0] < b[0]
    else CodePointLe(a[1..], b[1..])
  }

  lemma {:induction false} CodePointLeTotal(a: string, b: string)
    ensures CodePointLe(a, b) || CodePointLe(b, a)
  {
    if a != [] && b != [] && a[0] == b[0] {
      CodePointLeTotal(a[1..], b[1..]);
    }
  }

  lemma {:induction false} CodePointLeTransitive(a: string, b: string, c: string)
    requires CodePointLe(a, b) && CodePointLe(b, c)
    ensures CodePointLe(a, c)
  {
    if a != [] && b != [] && c != [] && a[0] == b[0] == c[0] {
      CodePointLeTransitive(a[1..], b[1..], c[1..]);
    }
  }

  lemma {:induction false} CodePointLeAntisymmetric(a: string, b: string)
    requires CodePointLe(a, b) && CodePointLe(b, a)
    ensures a == b
  {
    if a != [] && b != [] {
      CodePointLeAntisymmetric(a[1..], b[1..]);
      assert a == [a[0]] + a[1..];
      assert b == [b[0]] + b[1..];
    }
  }

  /** Stand-in for `a.localeCompare(b) <= 0`. Collation is locale-dependent;
      every sorting property of the model holds for any total preorder, and this
      one is code-point order. */
  predicate LocaleLe(a: string, b: string) {
    CodePointLe(a, b)
  }
}
