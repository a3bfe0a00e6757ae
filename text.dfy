/**
 * The Python string builtins that the schedule transform relies on:
 * `str.strip()`, `str.split(sep)` and `int(text)`, stated over `seq<char>`.
 */
module Text {

  datatype Option<+T> = None | Some(value: T)

  /** Python's `str.isspace()` for a single character. */
  predicate IsSpace(c: char)
  {
    || c == ' '
    || '\t' <= c <= '\r'
    || '\U{1C}' <= c <= '\U{1F}'
    || c == '\U{85}'
    || c == '\U{A0}'
    || c == '\U{1680}'
    || '\U{2000}' <= c <= '\U{200A}'
    || c == '\U{2028}'
    || c == '\U{2029}'
    || c == '\U{202F}'
    || c == '\U{205F}'
    || c == '\U{3000}'
  }

  predicate AllSpace(s: string)
  {
    forall i :: 0 <= i < |s| ==> IsSpace(s[i])
  }

  /** True when `s` has no whitespace at either end (what `strip` produces). */
  predicate Trimmed(s: string)
  {
    s == [] || (!IsSpace(s[0]) && !IsSpace(s[|s| - 1]))
  }

  /** `str.strip()`: drops the whitespace at both ends. */
  function Strip(s: string): (r: string)
    ensures Trimmed(r) && |r| <= |s|
  {
    if s == [] then s
    else if IsSpace(s[0]) then Strip(s[1..])
    else if IsSpace(s[|s| - 1]) then Strip(s[..|s| - 1])
    else s
  }

  /**
   * What `strip` removes: `s` is some whitespace, then the result, then
   * some more whitespace.
   */
  lemma {:induction false} StripShape(s: string) returns (pre: string, post: string)
    ensures s == pre + Strip(s) + post
    ensures AllSpace(pre) && AllSpace(post)
  {
    if s == [] {
      pre, post := [], [];
    } else if IsSpace(s[0]) {
      var p, q := StripShape(s[1..]);
      pre, post := [s[0]] + p, q;
      assert s == [s[0]] + s[1..];
    } else if IsSpace(s[|s| - 1]) {
      var p, q := StripShape(s[..|s| - 1]);
      pre, post := p, q + [s[|s| - 1]];
      assert s == s[..|s| - 1] + [s[|s| - 1]];
    } else {
      pre, post := [], [];
    }
  }

  /** Stripping text that is already trimmed leaves it unchanged. */
  lemma StripTrimmed(s: string)
    requires Trimmed(s)
    ensures Strip(s) == s
  {
  }

  /** `strip` is idempotent. */
  lemma StripIdempotent(s: string)
    ensures Strip(Strip(s)) == Strip(s)
  {
    StripTrimmed(Strip(s));
  }

  /**
   * The whitespace `int` skips around a numeral. Python turns every
   * character from U+0080 up that `str.isspace()` accepts into a space
   * before parsing, but below U+0080 it skips only space and `\t` to `\r`.
   * So the separators U+001C to U+001F, which `strip` removes, make `int`
   * fail.
   */
  predicate IsIntSpace(c: char)
  {
    IsSpace(c) && !('\U{1C}' <= c <= '\U{1F}')
  }

  /** True when `s` has no `int` whitespace at either end. */
  predicate IntTrimmed(s: string)
  {
    s == [] || (!IsIntSpace(s[0]) && !IsIntSpace(s[|s| - 1]))
  }

  /** The whitespace `int` drops at both ends before reading a numeral. */
  function IntStrip(s: string): (r: string)
    ensures IntTrimmed(r) && |r| <= |s|
  {
    if s == [] then s
    else if IsIntSpace(s[0]) then IntStrip(s[1..])
    else if IsIntSpace(s[|s| - 1]) then IntStrip(s[..|s| - 1])
    else s
  }

  predicate AllIntSpace(s: string)
  {
    forall i :: 0 <= i < |s| ==> IsIntSpace(s[i])
  }

  /**
   * What `int` drops before reading: `s` is some `int` whitespace, then the
   * result, then some more.
   */
  lemma {:induction false} IntStripShape(s: string) returns (pre: string, post: string)
    ensures s == pre + IntStrip(s) + post
    ensures AllIntSpace(pre) && AllIntSpace(post)
  {
    if s == [] {
      pre, post := [], [];
    } else if IsIntSpace(s[0]) {
      var p, q := IntStripShape(s[1..]);
      pre, post := [s[0]] + p, q;
      assert IntStrip(s) == IntStrip(s[1..]);
      calc {
        s;
        [s[0]] + s[1..];
        [s[0]] + (p + IntStrip(s) + q);
        pre + IntStrip(s) + post;
      }
    } else if IsIntSpace(s[|s| - 1]) {
      var p, q := IntStripShape(s[..|s| - 1]);
      pre, post := p, q + [s[|s| - 1]];
      assert IntStrip(s) == IntStrip(s[..|s| - 1]);
      calc {
        s;
        s[..|s| - 1] + [s[|s| - 1]];
        (p + IntStrip(s) + q) + [s[|s| - 1]];
        pre + IntStrip(s) + post;
      }
    } else {
      pre, post := [], [];
    }
  }

  /** Text with no `int` whitespace at either end is read as it stands. */
  lemma IntStripTrimmed(s: string)
    requires IntTrimmed(s)
    ensures IntStrip(s) == s
  {
  }

  /**
   * `s.split(sep)`: the maximal pieces of `s` between separators, empty
   * pieces included, so there is always at least one piece.
   */
  function Split(s: string, sep: char): (r: seq<string>)
    ensures |r| >= 1
  {
    if s == [] then [[]]
    else
      var rest := Split(s[1..], sep);
      if s[0] == sep then [[]] + rest
      else [[s[0]] + rest[0]] + rest[1..]
  }

  /** No piece of a split contains the separator. */
  lemma {:induction false} SplitPiecesLackSep(s: string, sep: char)
    ensures forall i :: 0 <= i < |Split(s, sep)| ==> sep !in Split(s, sep)[i]
  {
    if s != [] {
      SplitPiecesLackSep(s[1..], sep);
    }
  }

  /** `sep.join(pieces)`: the inverse of `Split`. */
  function Join(pieces: seq<string>, sep: char): string
  {
    if pieces == [] then []
    else if |pieces| == 1 then pieces[0]
    else pieces[0] + [sep] + Join(pieces[1..], sep)
  }

  /** Joining the pieces of a split gives back the text. */
  lemma {:induction false} JoinSplit(s: string, sep: char)
    ensures Join(Split(s, sep), sep) == s
  {
    if s != [] {
      JoinSplit(s[1..], sep);
      var rest := Split(s[1..], sep);
      if s[0] == sep {
        assert ([[]] + rest)[1..] == rest;
      } else if |rest| > 1 {
        assert ([[s[0]] + rest[0]] + rest[1..])[1..] == rest[1..];
      }
    }
  }

  /** Text without a separator splits into itself alone. */
  lemma {:induction false} SplitWithoutSep(a: string, sep: char)
    requires sep !in a
    ensures Split(a, sep) == [a]
  {
    if a != [] {
      SplitWithoutSep(a[1..], sep);
      assert [a[0]] + a[1..] == a;
    }
  }

  /** A separator after a separator-free head splits off exactly that head. */
  lemma {:induction false} SplitAfterHead(a: string, b: string, sep: char)
    requires sep !in a
    ensures Split(a + [sep] + b, sep) == [a] + Split(b, sep)
  {
    var s := a + [sep] + b;
    if a == [] {
      assert s[1..] == b;
    } else {
      assert s[1..] == a[1..] + [sep] + b;
      SplitAfterHead(a[1..], b, sep);
      assert [a[0]] + a[1..] == a;
    }
  }

  /** Splitting at one separator splits each side on its own. */
  lemma {:induction false} SplitAround(x: string, y: string, sep: char)
    ensures Split(x + [sep] + y, sep) == Split(x, sep) + Split(y, sep)
  {
    var s := x + [sep] + y;
    if x == [] {
      assert s[1..] == y;
    } else {
      assert s[1..] == x[1..] + [sep] + y;
      SplitAround(x[1..], y, sep);
    }
  }

  /** Splitting a join of separator-free pieces gives back the pieces. */
  lemma {:induction false} SplitJoin(pieces: seq<string>, sep: char)
    requires |pieces| >= 1
    requires forall i :: 0 <= i < |pieces| ==> sep !in pieces[i]
    ensures Split(Join(pieces, sep), sep) == pieces
  {
    if |pieces| == 1 {
      SplitWithoutSep(pieces[0], sep);
    } else {
      SplitJoin(pieces[1..], sep);
      SplitAfterHead(pieces[0], Join(pieces[1..], sep), sep);
      assert [pieces[0]] + pieces[1..] == pieces;
    }
  }

  predicate IsDigit(c: char)
  {
    '0' <= c <= '9'
  }

  predicate AllDigits(s: string)
  {
    forall i :: 0 <= i < |s| ==> IsDigit(s[i])
  }

  /** The value of a string of decimal digits, most significant first. */
  function DigitsValue(d: string): nat
    requires AllDigits(d)
  {
    if d == [] then 0 else 10 * DigitsValue(d[..|d| - 1]) + (d[|d| - 1] as int - '0' as int)
  }

  /**
   * `int(text)` restricted to ASCII numerals: optional surrounding `int`
   * whitespace, an optional sign, then one or more digits. Every such text
   * is accepted, with its value; nothing else is.
   */
  function ParseInt(s: string): (r: Option<int>)
    ensures r.Some? ==> var t := IntStrip(s);
      && t != []
      && (IsDigit(t[0]) || t[0] == '+' || t[0] == '-')
      && AllDigits(t[1..])
      && (IsDigit(t[0]) || |t| > 1)
    ensures var t := IntStrip(s);
      t != [] && AllDigits(t[1..]) && (IsDigit(t[0]) || ((t[0] == '+' || t[0] == '-') && |t| > 1)) ==>
      r == Some(if IsDigit(t[0]) then DigitsValue(t)
                else if t[0] == '-' then -(DigitsValue(t[1..]) as int)
                else DigitsValue(t[1..]))
  {
    var t := IntStrip(s);
    if t != [] && (t[0] == '+' || t[0] == '-') then
      if |t| > 1 && AllDigits(t[1..]) then
        var magnitude: int := DigitsValue(t[1..]);
        Some(if t[0] == '-' then -magnitude else magnitude)
      else None
    else if t != [] && AllDigits(t) then Some(DigitsValue(t))
    else None
  }

  function DigitChar(k: nat): (c: char)
    requires k < 10
    ensures IsDigit(c) && c as int - '0' as int == k
  {
    ('0' as int + k) as char
  }

  /** The canonical decimal numeral of `n`, as Python's `str(n)` writes it. */
  function DecimalString(n: nat): (r: string)
    ensures r != [] && AllDigits(r)
  {
    if n < 10 then [DigitChar(n)] else DecimalString(n / 10) + [DigitChar(n % 10)]
  }

  /** `str(n)` for any integer: a minus sign before the numeral of `-n`. */
  function IntString(n: int): (r: string)
    ensures r != [] && (IsDigit(r[0]) || r[0] == '-') && IsDigit(r[|r| - 1])
  {
    if n < 0 then "-" + DecimalString(-n) else DecimalString(n)
  }

  /** Reading back a rendered numeral gives its value. */
  lemma {:induction false} DigitsRoundTrip(n: nat)
    ensures DigitsValue(DecimalString(n)) == n
  {
    if n >= 10 {
      var d := DecimalString(n);
      assert d[..|d| - 1] == DecimalString(n / 10);
      DigitsRoundTrip(n / 10);
    }
  }

  /** `int(str(n)) == n` for every integer `n`. */
  lemma ParseIntRoundTrip(n: int)
    ensures ParseInt(IntString(n)) == Some(n)
  {
    var s := IntString(n);
    assert IntStrip(s) == s by { IntStripTrimmed(s); }
    if n < 0 {
      var d := DecimalString(-n);
      assert s == ['-'] + d;
      assert s[1..] == d;
      DigitsRoundTrip(-n);
    } else {
      assert s[0] != '-' && s[0] != '+';
      DigitsRoundTrip(n);
    }
  }

  /**
   * `strip` removes a leading U+001C but `int` does not skip it, so `int`
   * rejects the text after a colon in `9:\x1c30` even though the cell's
   * `strip` keeps it.
   */
  lemma FileSeparatorRejected(s: string)
    requires s == "\U{1C}30"
    ensures Strip(s) == "30"
    ensures ParseInt(s) == None
  {
    assert s[1..] == "30";
    StripTrimmed("30");
    IntStripTrimmed(s);
  }
}
