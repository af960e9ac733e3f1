/**
 * String operations of the Rust standard library that the core relies on:
 * `str::split` on one character, joining with a separator, `trim`, ASCII
 * lower-casing and `usize::from_str`.
 */
module Text {
  import opened Wrappers

  /** `s.split(sep)`: the pieces between separators; an empty string gives one empty piece. */
  function Split(s: string, sep: char): (parts: seq<string>)
    ensures |parts| >= 1
    ensures forall i :: 0 <= i < |parts| ==> sep !in parts[i]
    decreases |s|
  {
    if s == [] then [[]]
    else
      var init := Split(s[..|s| - 1], sep);
      var c := s[|s| - 1];
      if c == sep then init + [[]]
      else init[..|init| - 1] + [init[|init| - 1] + [c]]
  }

  lemma SplitSnoc(s: string, c: char, sep: char)
    ensures var init := Split(s, sep);
            Split(s + [c], sep) == if c == sep then init + [[]] else init[..|init| - 1] + [init[|init| - 1] + [c]]
  {
    assert (s + [c])[..|s|] == s;
  }

  /** A string without the separator is one piece. */
  lemma {:induction false} SplitNoSep(w: string, sep: char)
    requires sep !in w
    ensures Split(w, sep) == [w]
    decreases |w|
  {
    if w != [] {
      var init, c := w[..|w| - 1], w[|w| - 1];
      assert sep !in init by {
        assert forall k :: 0 <= k < |init| ==> init[k] == w[k];
      }
      SplitNoSep(init, sep);
      assert c != sep by {
        assert c == w[|w| - 1];
      }
      assert init + [c] == w;
    }
  }

  /** Splitting at a separator splits each side on its own. */
  lemma {:induction false} SplitConcat(a: string, b: string, sep: char)
    ensures Split(a + [sep] + b, sep) == Split(a, sep) + Split(b, sep)
    decreases |b|
  {
    if b == [] {
      SplitSnoc(a, sep, sep);
      assert a + [sep] + b == a + [sep];
    } else {
      var b', c := b[..|b| - 1], b[|b| - 1];
      var x := a + [sep] + b';
      SplitConcat(a, b', sep);
      assert a + [sep] + b == x + [c] by {
        assert b == b' + [c];
      }
      SplitSnoc(x, c, sep);
      SplitSnoc(b', c, sep);
      assert b' + [c] == b;
      var A, B := Split(a, sep), Split(b', sep);
      if c == sep {
        ConcatAssoc(A, B, [[]]);
      } else {
        ConcatLast(A, B);
        ConcatAssoc(A, B[..|B| - 1], [B[|B| - 1] + [c]]);
      }
    }
  }

  /** Three separator-free pieces joined by the separator split back into those three. */
  lemma SplitThree(x: string, m: string, y: string, sep: char)
    requires sep !in x && sep !in m && sep !in y
    ensures Split(x + [sep] + m + [sep] + y, sep) == [x, m, y]
  {
    var t := m + [sep] + y;
    assert Split(t, sep) == [m, y] by {
      SplitConcat(m, y, sep);
      SplitNoSep(m, sep);
      SplitNoSep(y, sep);
    }
    assert Split(x + [sep] + t, sep) == [x, m, y] by {
      SplitConcat(x, t, sep);
      SplitNoSep(x, sep);
    }
    assert x + [sep] + m + [sep] + y == x + [sep] + t;
  }

  lemma ConcatAssoc<T>(a: seq<T>, b: seq<T>, c: seq<T>)
    ensures (a + b) + c == a + (b + c)
  {
  }

  lemma ConcatLast<T>(xs: seq<T>, ys: seq<T>)
    requires |ys| >= 1
    ensures (xs + ys)[..|xs + ys| - 1] == xs + ys[..|ys| - 1]
    ensures (xs + ys)[|xs + ys| - 1] == ys[|ys| - 1]
  {
  }

  /** `parts.join(sep)`. */
  function Join(parts: seq<string>, sep: char): string
    decreases |parts|
  {
    if parts == [] then []
    else if |parts| == 1 then parts[0]
    else Join(parts[..|parts| - 1], sep) + [sep] + parts[|parts| - 1]
  }

  lemma {:induction false} JoinSnoc(parts: seq<string>, last: string, c: char, sep: char)
    requires |parts| >= 1
    ensures Join(parts[..|parts| - 1] + [parts[|parts| - 1] + [c]], sep) == Join(parts, sep) + [c]
  {
    var q := parts[..|parts| - 1] + [parts[|parts| - 1] + [c]];
    assert q[..|q| - 1] == parts[..|parts| - 1];
  }

  /** Joining the pieces of a split gives the original string back. */
  lemma {:induction false} JoinSplit(s: string, sep: char)
    ensures Join(Split(s, sep), sep) == s
    decreases |s|
  {
    if s != [] {
      var init := Split(s[..|s| - 1], sep);
      JoinSplit(s[..|s| - 1], sep);
      var c := s[|s| - 1];
      if c == sep {
        var q := init + [[]];
        assert q[..|q| - 1] == init;
        assert Join(q, sep) == Join(init, sep) + [sep] + [];
      } else {
        JoinSnoc(init, init[|init| - 1], c, sep);
      }
      assert s == s[..|s| - 1] + [c];
    }
  }

  predicate IsDigit(c: char) {
    '0' <= c <= '9'
  }

  predicate AllDigits(s: string) {
    forall i :: 0 <= i < |s| ==> IsDigit(s[i])
  }

  /** `char::is_whitespace`: the Unicode White_Space property. */
  predicate IsWhitespace(c: char) {
    ('\U{9}' <= c <= '\U{D}') || c == ' ' || c == '\U{85}' || c == '\U{A0}' || c == '\U{1680}'
    || ('\U{2000}' <= c <= '\U{200A}') || c == '\U{2028}' || c == '\U{2029}' || c == '\U{202F}'
    || c == '\U{205F}' || c == '\U{3000}'
  }

  function TrimStart(s: string): (r: string)
    ensures |r| <= |s| && r == s[|s| - |r|..]
    ensures r == [] || !IsWhitespace(r[0])
    decreases |s|
  {
    if s != [] && IsWhitespace(s[0]) then TrimStart(s[1..]) else s
  }

  function TrimEnd(s: string): (r: string)
    ensures |r| <= |s| && r == s[..|r|]
    ensures r == [] || !IsWhitespace(r[|r| - 1])
    decreases |s|
  {
    if s != [] && IsWhitespace(s[|s| - 1]) then TrimEnd(s[..|s| - 1]) else s
  }

  /** `str::trim`: leading and trailing white space removed. */
  function Trim(s: string): string {
    TrimEnd(TrimStart(s))
  }

  lemma {:induction false} TrimStartBlank(pre: string, w: string)
    requires forall i :: 0 <= i < |pre| ==> IsWhitespace(pre[i])
    requires w == [] || !IsWhitespace(w[0])
    ensures TrimStart(pre + w) == w
    decreases |pre|
  {
    if pre != [] {
      assert (pre + w)[1..] == pre[1..] + w;
      TrimStartBlank(pre[1..], w);
    } else {
      assert pre + w == w;
    }
  }

  lemma {:induction false} TrimEndBlank(w: string, post: string)
    requires forall i :: 0 <= i < |post| ==> IsWhitespace(post[i])
    requires w == [] || !IsWhitespace(w[|w| - 1])
    ensures TrimEnd(w + post) == w
    decreases |post|
  {
    if post != [] {
      assert (w + post)[..|w + post| - 1] == w + post[..|post| - 1];
      TrimEndBlank(w, post[..|post| - 1]);
    } else {
      assert w + post == w;
    }
  }

  /** Surrounding white space, however much, is what `trim` removes and nothing else. */
  lemma TrimSurrounded(pre: string, w: string, post: string)
    requires forall i :: 0 <= i < |pre| ==> IsWhitespace(pre[i])
    requires forall i :: 0 <= i < |post| ==> IsWhitespace(post[i])
    requires w != [] && !IsWhitespace(w[0]) && !IsWhitespace(w[|w| - 1])
    ensures Trim(pre + w + post) == w
  {
    assert pre + w + post == pre + (w + post);
    TrimStartBlank(pre, w + post);
    TrimEndBlank(w, post);
  }

  function LowerChar(c: char): char {
    if 'A' <= c <= 'Z' then (c as int + 32) as char else c
  }

  /** `to_lowercase`, for the ASCII letters. */
  function ToLower(s: string): (r: string)
    ensures |r| == |s|
    ensures forall i :: 0 <= i < |s| ==> r[i] == LowerChar(s[i])
  {
    seq(|s|, i requires 0 <= i < |s| => LowerChar(s[i]))
  }

  function DigitsValue(s: string): nat
    requires AllDigits(s)
    decreases |s|
  {
    if s == [] then 0
    else 10 * DigitsValue(s[..|s| - 1]) + (s[|s| - 1] as int - '0' as int)
  }

  /** The decimal rendering of `k`, without leading zeros, as `usize`'s `Display` writes it. */
  function Decimal(k: nat): (s: string)
    ensures s != [] && AllDigits(s)
    decreases k
  {
    if k < 10 then [('0' as int + k) as char]
    else Decimal(k / 10) + [('0' as int + k % 10) as char]
  }

  lemma {:induction false} DecimalValue(k: nat)
    ensures DigitsValue(Decimal(k)) == k
    decreases k
  {
    var s := Decimal(k);
    if k < 10 {
      assert s[..|s| - 1] == [];
    } else {
      DecimalValue(k / 10);
      assert s[..|s| - 1] == Decimal(k / 10);
    }
  }

  const USIZE_LIMIT: nat := 0x1_0000_0000_0000_0000

  /**
   * `s.parse::<usize>()` on a 64-bit target: an optional `+` and then at least
   * one decimal digit, with a value below 2^64.
   */
  function ParseUsize(s: string): (r: Option<nat>)
    ensures r.Some? ==> r.value < USIZE_LIMIT
  {
    var digits := if |s| > 0 && s[0] == '+' then s[1..] else s;
    if digits == [] || !AllDigits(digits) then None
    else
      var v := DigitsValue(digits);
      if v < USIZE_LIMIT then Some(v) else None
  }

  /** Every number `usize` can hold reads back from its decimal rendering. */
  lemma ParseUsizeDecimal(k: nat)
    requires k < USIZE_LIMIT
    ensures ParseUsize(Decimal(k)) == Some(k)
  {
    DecimalValue(k);
  }
}
