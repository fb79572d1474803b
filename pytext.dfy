/**
 * Models of the Python `str` built-ins that the exporter relies on: `split`/`join` on a
 * separator, `strip`/`rstrip` with Python's whitespace class, `startswith`/`endswith`,
 * repetition, slicing with Python's index clamping, and `str()` of an integer.
 */
module PyText {

  /** Position of the first occurrence of `c` in `s`. */
  function IndexOf(s: string, c: char): (i: nat)
    requires c in s
    ensures i < |s| && s[i] == c && c !in s[..i]
  {
    if s[0] == c then 0
    else
      var j := IndexOf(s[1..], c);
      assert s[..j + 1] == [s[0]] + s[1..][..j];
      1 + j
  }

  /** Python's `s.split(sep)` for a one-character separator. */
  function Split(s: string, sep: char): (r: seq<string>)
    ensures |r| >= 1
    ensures forall k :: 0 <= k < |r| ==> sep !in r[k]
    decreases |s|
  {
    if sep !in s then [s]
    else
      var i := IndexOf(s, sep);
      [s[..i]] + Split(s[i + 1..], sep)
  }

  /** Python's `sep.join(parts)`. */
  function Join(sep: string, parts: seq<string>): string
  {
    if |parts| == 0 then ""
    else if |parts| == 1 then parts[0]
    else parts[0] + sep + Join(sep, parts[1..])
  }

  /** Every line followed by a newline: what a loop of `out += line + "\n"` builds. */
  function ConcatLines(lines: seq<string>): string
  {
    if |lines| == 0 then "" else lines[0] + "\n" + ConcatLines(lines[1..])
  }

  ghost predicate NoNewlines(lines: seq<string>)
  {
    forall k :: 0 <= k < |lines| ==> '\n' !in lines[k]
  }

  /** The first separator after a separator-free prefix is the one that ends the prefix. */
  lemma {:induction false} IndexOfAfter(a: string, c: char, b: string)
    requires c !in a
    ensures c in a + [c] + b && IndexOf(a + [c] + b, c) == |a|
  {
    var s := a + [c] + b;
    assert s[|a|] == c;
    if |a| > 0 {
      assert s[1..] == a[1..] + [c] + b;
      IndexOfAfter(a[1..], c, b);
    }
  }

  /** Splitting at a separator that ends a separator-free prefix yields that prefix first. */
  lemma SplitStep(p: string, sep: char, tail: string)
    requires sep !in p
    ensures Split(p + [sep] + tail, sep) == [p] + Split(tail, sep)
  {
    var s := p + [sep] + tail;
    IndexOfAfter(p, sep, tail);
    assert s[..|p|] == p;
    assert s[|p| + 1..] == tail;
  }

  /** Splitting a join on its separator gives the parts back, when no part holds the separator. */
  lemma {:induction false} SplitJoin(parts: seq<string>, sep: char)
    requires |parts| >= 1
    requires forall k :: 0 <= k < |parts| ==> sep !in parts[k]
    ensures Split(Join([sep], parts), sep) == parts
  {
    if |parts| > 1 {
      SplitStep(parts[0], sep, Join([sep], parts[1..]));
      SplitJoin(parts[1..], sep);
      assert parts == [parts[0]] + parts[1..];
    }
  }

  /** The text built line by line splits into exactly those lines and one empty remainder. */
  lemma {:induction false} SplitConcatLines(lines: seq<string>)
    requires NoNewlines(lines)
    ensures Split(ConcatLines(lines), '\n') == lines + [""]
  {
    if |lines| > 0 {
      SplitStep(lines[0], '\n', ConcatLines(lines[1..]));
      assert ConcatLines(lines) == lines[0] + "\n" + ConcatLines(lines[1..]);
      SplitConcatLines(lines[1..]);
      assert lines == [lines[0]] + lines[1..];
    } else {
      assert '\n' !in ConcatLines(lines);
    }
  }

  /** Joining the parts of a split on the same separator gives the string back. */
  lemma {:induction false} JoinSplit(s: string, sep: char)
    ensures Join([sep], Split(s, sep)) == s
    decreases |s|
  {
    if sep in s {
      var i := IndexOf(s, sep);
      JoinSplit(s[i + 1..], sep);
      assert [s[..i]] + Split(s[i + 1..], sep) == Split(s, sep);
      assert s == s[..i] + [sep] + s[i + 1..];
    }
  }

  /** A join of two non-empty lists of parts is the two joins around one separator. */
  lemma {:induction false} JoinAppend(sep: string, a: seq<string>, b: seq<string>)
    requires |a| >= 1 && |b| >= 1
    ensures Join(sep, a + b) == Join(sep, a) + sep + Join(sep, b)
  {
    if |a| > 1 {
      assert (a + b)[1..] == a[1..] + b;
      JoinAppend(sep, a[1..], b);
    } else {
      assert (a + b)[1..] == b;
    }
  }

  /** Lines joined by newlines, plus a final newline, are the lines each followed by a newline. */
  lemma {:induction false} JoinConcatLines(lines: seq<string>)
    requires |lines| >= 1
    ensures Join("\n", lines) + "\n" == ConcatLines(lines)
  {
    if |lines| > 1 {
      JoinConcatLines(lines[1..]);
    }
  }

  /** Text built line by line, then anything: the lines come first when split. */
  lemma {:induction false} SplitConcatLinesThen(lines: seq<string>, tail: string)
    requires NoNewlines(lines)
    ensures Split(ConcatLines(lines) + tail, '\n') == lines + Split(tail, '\n')
  {
    if |lines| > 0 {
      var rest := ConcatLines(lines[1..]) + tail;
      ConcatLinesThen(lines, tail);
      SplitStep(lines[0], '\n', rest);
      SplitConcatLinesThen(lines[1..], tail);
      ConsAppend(lines, Split(tail, '\n'));
    } else {
      assert ConcatLines(lines) + tail == tail;
    }
  }

  /** The first line and its newline, then the remaining lines and anything after them. */
  lemma ConcatLinesThen(lines: seq<string>, tail: string)
    requires |lines| > 0
    ensures ConcatLines(lines) + tail == lines[0] + "\n" + (ConcatLines(lines[1..]) + tail)
  {
  }

  lemma ConsAppend<T>(a: seq<T>, b: seq<T>)
    requires |a| > 0
    ensures a + b == [a[0]] + (a[1..] + b)
  {
    assert a == [a[0]] + a[1..];
  }

  /** Python's `str.isspace()` for one character (the characters `strip()` removes). */
  predicate IsPyWhitespace(c: char)
  {
    ('\t' <= c <= '\r') || ('\U{1C}' <= c <= ' ') || c == '\U{85}' || c == '\U{A0}'
    || c == '\U{1680}' || ('\U{2000}' <= c <= '\U{200A}') || c == '\U{2028}' || c == '\U{2029}'
    || c == '\U{202F}' || c == '\U{205F}' || c == '\U{3000}'
  }

  /** `not s.strip()`: the string is empty or made only of whitespace. */
  predicate IsBlank(s: string)
  {
    forall k :: 0 <= k < |s| ==> IsPyWhitespace(s[k])
  }

  /** Python's `s.rstrip()`. */
  function RStrip(s: string): (r: string)
    ensures |r| <= |s| && r == s[..|r|]
    ensures r == "" || !IsPyWhitespace(r[|r| - 1])
    ensures forall k :: |r| <= k < |s| ==> IsPyWhitespace(s[k])
  {
    if |s| > 0 && IsPyWhitespace(s[|s| - 1]) then RStrip(s[..|s| - 1]) else s
  }

  predicate StartsWith(s: string, prefix: string)
  {
    |prefix| <= |s| && s[..|prefix|] == prefix
  }

  predicate EndsWith(s: string, suffix: string)
  {
    |suffix| <= |s| && s[|s| - |suffix|..] == suffix
  }

  /** Python's `s * n` (empty for `n <= 0`). */
  function Repeat(s: string, n: int): (r: string)
    ensures n > 0 ==> |r| == |s| * n
    ensures n <= 0 ==> r == ""
    decreases n
  {
    if n <= 0 then "" else s + Repeat(s, n - 1)
  }

  /** Python's index normalisation for a slice bound: negative counts from the end, then clamp. */
  function PyIndex(i: int, n: nat): (k: nat)
    ensures k <= n
    ensures 0 <= i <= n ==> k == i
  {
    if i < 0 then (if i + n < 0 then 0 else i + n) else if i > n then n else i
  }

  /** Python's `s[i:j]`. */
  function Slice(s: string, i: int, j: int): string
  {
    var a := PyIndex(i, |s|);
    var b := PyIndex(j, |s|);
    if a < b then s[a..b] else ""
  }

  /** Python's `s[:i]`. */
  function SliceTo(s: string, i: int): string
  {
    s[..PyIndex(i, |s|)]
  }

  /** Python's `s[i:]`. */
  function SliceFrom(s: string, i: int): string
  {
    s[PyIndex(i, |s|)..]
  }

  function Pow10(k: nat): (p: nat)
    ensures p >= 1
  {
    if k == 0 then 1 else 10 * Pow10(k - 1)
  }

  function DigitChar(d: nat): char
    requires d < 10
  {
    "0123456789"[d]
  }

  /** Python's `str(n)` for `n >= 0`. */
  function NatToString(n: nat): (r: string)
    ensures |r| >= 1
    ensures forall k :: 0 <= k < |r| ==> '0' <= r[k] <= '9'
  {
    if n < 10 then [DigitChar(n)] else NatToString(n / 10) + [DigitChar(n % 10)]
  }

  /** Python's `str(i)`: a minus sign, then the digits of the magnitude. */
  function IntToString(i: int): string
  {
    if i < 0 then "-" + NatToString(-i) else NatToString(i)
  }

  /** `str(n)` has at most `k` digits exactly when `n < 10^k`. */
  lemma {:induction false} NatToStringLength(n: nat, k: nat)
    requires k >= 1
    ensures |NatToString(n)| <= k <==> n < Pow10(k)
  {
    if n >= 10 {
      if k == 1 {
        assert Pow10(1) == 10;
      } else {
        NatToStringLength(n / 10, k - 1);
        assert n < Pow10(k) <==> n / 10 < Pow10(k - 1);
      }
    } else {
      assert Pow10(k) >= 10 by { PowAtLeastTen(k); }
    }
  }

  lemma {:induction false} PowAtLeastTen(k: nat)
    requires k >= 1
    ensures Pow10(k) >= 10
  {
    if k > 1 { PowAtLeastTen(k - 1); }
  }

  /** `str(i)` counts the minus sign, so it is ten characters long for exactly these integers. */
  lemma TenCharacters(i: int)
    ensures |IntToString(i)| == 10 <==>
      (1_000_000_000 <= i <= 9_999_999_999) || (-999_999_999 <= i <= -100_000_000)
  {
    assert Pow10(8) == 100_000_000;
    assert Pow10(9) == 1_000_000_000;
    assert Pow10(10) == 10_000_000_000;
    if i < 0 {
      NatToStringLength(-i, 9);
      NatToStringLength(-i, 8);
    } else {
      NatToStringLength(i, 10);
      NatToStringLength(i, 9);
    }
  }

  /** `"%0<width>d" % n`: the decimal digits, left-padded with zeros to `width`. */
  function ZeroPad(n: nat, width: nat): (r: string)
    ensures |r| >= width
  {
    var digits := NatToString(n);
    Repeat("0", width - |digits|) + digits
  }
}
