/** Decimal numerals, runs of characters, joining and splitting. */
module Text {

  datatype Option<+T> = None | Some(value: T)

  /** The character classes that the texts are scanned by. */
  datatype Class = Digits | WordChars | Dotted | Blanks | Quotes

  predicate IsDigit(c: char) {
    '0' <= c <= '9'
  }

  /** The characters of plain and qualified SQL names. */
  predicate IsWordChar(c: char) {
    'a' <= c <= 'z' || 'A' <= c <= 'Z' || c == '_' || c == '.' || IsDigit(c)
  }

  /** `str.isspace`; also what `\s` matches and `strip()` removes. */
  predicate IsSpace(c: char) {
    var n := c as int;
    || 0x09 <= n <= 0x0D || 0x1C <= n <= 0x20 || n == 0x85 || n == 0xA0 || n == 0x1680
    || 0x2000 <= n <= 0x200A || n == 0x2028 || n == 0x2029 || n == 0x202F || n == 0x205F || n == 0x3000
  }

  predicate In(k: Class, c: char) {
    match k
    case Digits => IsDigit(c)
    case WordChars => IsWordChar(c)
    case Dotted => IsDigit(c) || c == '.'
    case Blanks => IsSpace(c)
    case Quotes => c == '"'
  }

  predicate AllIn(k: Class, s: string) {
    forall i :: 0 <= i < |s| ==> In(k, s[i])
  }

  /** The length of the longest prefix of s in class k. */
  function Span(k: Class, s: string): (n: nat)
    ensures n <= |s| && AllIn(k, s[..n]) && (n < |s| ==> !In(k, s[n]))
  {
    if s == "" || !In(k, s[0]) then 0 else 1 + Span(k, s[1..])
  }

  /** rest does not prolong a run of class k. */
  predicate Ends(k: Class, rest: string) {
    rest == "" || !In(k, rest[0])
  }

  lemma {:induction false} SpanExact(k: Class, run: string, rest: string)
    requires AllIn(k, run) && Ends(k, rest)
    ensures Span(k, run + rest) == |run|
  {
    if run != "" {
      SpanExact(k, run[1..], rest);
      assert (run + rest)[1..] == run[1..] + rest;
    } else {
      assert run + rest == rest;
    }
  }

  function DigitOf(d: nat): (c: char)
    requires d < 10
    ensures IsDigit(c)
  {
    "0123456789"[d]
  }

  function ValueOf(c: char): nat
    requires IsDigit(c)
  {
    c as int - '0' as int
  }

  /** `str(n)`. */
  function Decimal(n: nat): (s: string)
    ensures s != "" && AllIn(Digits, s)
  {
    if n < 10 then [DigitOf(n)] else Decimal(n / 10) + [DigitOf(n % 10)]
  }

  /** `int(s)`, for a run of digits. */
  function ParseDecimal(s: string): nat
    requires AllIn(Digits, s)
  {
    if s == "" then 0 else 10 * ParseDecimal(s[..|s| - 1]) + ValueOf(s[|s| - 1])
  }

  lemma {:induction false} DecimalRoundTrip(n: nat)
    ensures ParseDecimal(Decimal(n)) == n
  {
    assert forall d: nat :: d < 10 ==> ValueOf(DigitOf(d)) == d by {
      forall d: nat | d < 10 ensures ValueOf(DigitOf(d)) == d {
        assert DigitOf(d) == '0' + (d as char);
      }
    }
    if n >= 10 {
      DecimalRoundTrip(n / 10);
      var s := Decimal(n);
      assert s[..|s| - 1] == Decimal(n / 10);
    }
  }

  /** `sep.join(parts)`. */
  function Join(sep: string, parts: seq<string>): string {
    if parts == [] then ""
    else if |parts| == 1 then parts[0]
    else parts[0] + sep + Join(sep, parts[1..])
  }
}
