/**
 * The parsed export: JSON-like metadata values with Python's equality and `str()`, and the
 * snapshot objects of the corpus.
 */
module Corpus {
  import opened Wrappers
  import opened PyText
  import opened BlockConverter

  /** A JSON scalar as Python sees it after `json.load`. */
  datatype Scalar = Null | Bool(b: bool) | Int(i: int) | Str(s: string)

  /** A metadata value: a scalar, or a list of scalars. */
  datatype Value = One(v: Scalar) | List(items: seq<Scalar>)

  /** The number a `bool` or `int` stands for in Python's arithmetic comparisons. */
  function Numeric(x: Scalar): int
    requires x.Bool? || x.Int?
  {
    if x.Bool? then (if x.b then 1 else 0) else x.i
  }

  /** Python's `==` on scalars: `True == 1` and `False == 0`, strings compare by text,
      `None` equals only `None`. */
  predicate ScalarEq(x: Scalar, y: Scalar)
  {
    if (x.Bool? || x.Int?) && (y.Bool? || y.Int?) then Numeric(x) == Numeric(y)
    else if x.Str? && y.Str? then x.s == y.s
    else x.Null? && y.Null?
  }

  /** Python's `==` on values: lists compare element by element. */
  predicate ValueEq(a: Value, b: Value)
  {
    match (a, b)
    case (One(x), One(y)) => ScalarEq(x, y)
    case (List(xs), List(ys)) => |xs| == |ys| && forall k :: 0 <= k < |xs| ==> ScalarEq(xs[k], ys[k])
    case _ => false
  }

  /** `str(x)`. */
  function PyStr(x: Scalar): string
  {
    match x
    case Null => "None"
    case Bool(b) => if b then "True" else "False"
    case Int(i) => IntToString(i)
    case Str(s) => s
  }

  /** The quote `repr` puts round a string: a double quote when the text holds a single
      quote and no double quote, a single quote otherwise. */
  function QuoteFor(s: string): char
  {
    if '\'' in s && '"' !in s then '"' else '\''
  }

  function HexDigit(n: nat): char
    requires n < 16
  {
    "0123456789abcdef"[n]
  }

  /** How `repr` writes one ASCII character inside quotes `quote`: the quote and the backslash
      behind a backslash, tab, newline and carriage return by name, other control characters
      as `\x` and two hex digits. */
  function ReprChar(c: char, quote: char): string
  {
    if c == quote || c == '\\' then ['\\', c]
    else if c == '\t' then "\\t"
    else if c == '\n' then "\\n"
    else if c == '\r' then "\\r"
    else if c < ' ' || c == '\U{7F}' then "\\x" + [HexDigit(c as int / 16), HexDigit(c as int % 16)]
    else [c]
  }

  function ReprText(s: string, quote: char): string
  {
    if |s| == 0 then "" else ReprChar(s[0], quote) + ReprText(s[1..], quote)
  }

  /** `repr(x)`: a string between the quotes `QuoteFor` picks, with its characters escaped. */
  function Repr(x: Scalar): string
  {
    if x.Str? then var q := QuoteFor(x.s); [q] + ReprText(x.s, q) + [q] else PyStr(x)
  }

  /** A character `repr` copies as it is inside quotes `quote`. */
  predicate PlainChar(c: char, quote: char)
  {
    ' ' <= c < '\U{7F}' && c != '\\' && c != quote
  }

  lemma {:induction false} ReprTextPlain(s: string, quote: char)
    requires forall k :: 0 <= k < |s| ==> PlainChar(s[k], quote)
    ensures ReprText(s, quote) == s
  {
    if |s| > 0 {
      ReprTextPlain(s[1..], quote);
    }
  }

  /** Printable ASCII text without a backslash or a single quote shows between single quotes. */
  lemma ReprSingleQuoted(s: string)
    requires forall k :: 0 <= k < |s| ==> PlainChar(s[k], '\'')
    ensures Repr(Str(s)) == "'" + s + "'"
  {
    ReprTextPlain(s, '\'');
  }

  /** Printable ASCII text holding a single quote but no double quote or backslash shows
      between double quotes, its single quotes unescaped. */
  lemma ReprDoubleQuoted(s: string)
    requires '\'' in s
    requires forall k :: 0 <= k < |s| ==> PlainChar(s[k], '"')
    ensures Repr(Str(s)) == "\"" + s + "\""
  {
    ReprTextPlain(s, '"');
  }

  /** Text holding both quotes keeps the single quote and escapes it. */
  lemma ReprEscapesQuote()
    ensures Repr(Str("a'b\"")) == "'a\\'b\"'"
  {
    assert ReprText("\"", '\'') == "\"";
    assert ReprText("b\"", '\'') == "b\"";
    assert ReprText("'b\"", '\'') == "\\'b\"";
  }

  /** A backslash and a newline are written as escapes. */
  lemma ReprEscapesBackslash()
    ensures Repr(Str("\\\n")) == "'\\\\\\n'"
  {
    assert ReprText("\n", '\'') == "\\n";
  }

  /** Another control character is written as `\x` and two hex digits. */
  lemma ReprEscapesControl()
    ensures Repr(Str("\U{1}")) == "'\\x01'"
  {
    assert ReprText("\U{1}", '\'') == "\\x01";
  }

  function ReprAll(xs: seq<Scalar>): (r: seq<string>)
    ensures |r| == |xs|
  {
    if |xs| == 0 then [] else [Repr(xs[0])] + ReprAll(xs[1..])
  }

  /** `str(v)`: a list prints as its elements' `repr`, comma-separated, in brackets. */
  function PyStrValue(v: Value): string
  {
    match v
    case One(x) => PyStr(x)
    case List(xs) => "[" + Join(", ", ReprAll(xs)) + "]"
  }

  /** `str(["it's"])` is `["it's"]`: the element is shown between double quotes. */
  lemma StrOfListWithApostrophe()
    ensures PyStrValue(List([Str("it's")])) == "[\"it's\"]"
  {
    var xs, r := [Str("it's")], "\"it's\"";
    ReprDoubleQuoted("it's");
    assert xs[1..] == [];
    assert Repr(xs[0]) == r;
    assert ReprAll(xs) == [r];
    assert Join(", ", [r]) == r;
  }

  /** `details.get(key)`: a missing key reads as `None`. */
  function Get(details: map<string, Value>, key: string): Value
  {
    if key in details then details[key] else One(Null)
  }

  /** One exported snapshot: its `sbType`, `snapshot.data.details`, the keys of
      `snapshot.data.relationLinks`, and `snapshot.data.blocks` when present. */
  datatype CorpusObject = CorpusObject(
    sbType: Value,
    details: map<string, Value>,
    relationLinks: seq<string>,
    blocks: Option<seq<Block>>)

  /** `obj.get('sbType') == t`. */
  predicate HasType(obj: CorpusObject, t: string)
  {
    ValueEq(obj.sbType, One(Str(t)))
  }

  /** Python's `==` on scalars is an equivalence. */
  lemma ScalarEqEquivalence(x: Scalar, y: Scalar, z: Scalar)
    ensures ScalarEq(x, x)
    ensures ScalarEq(x, y) ==> ScalarEq(y, x)
    ensures ScalarEq(x, y) && ScalarEq(y, z) ==> ScalarEq(x, z)
  {
  }

  /** A string equals only the same string, and a number or boolean never equals a string. */
  lemma StrEq(x: Scalar, s: string)
    ensures ScalarEq(x, Str(s)) <==> x == Str(s)
  {
  }

  /** `True == 1` and `False == 0`, although the two print differently. */
  lemma BoolIsNumber()
    ensures ScalarEq(Bool(true), Int(1)) && ScalarEq(Bool(false), Int(0))
    ensures PyStr(Bool(true)) != PyStr(Int(1))
  {
    assert PyStr(Int(1)) == "1";
  }
}
