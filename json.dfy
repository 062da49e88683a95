/** Decoded JSON as the bot receives it from `response.json()`, and the way
    Python's `str()` (an f-string interpolation) renders such a value. */
module Json {

  /** A JSON value as Python's json module decodes it: `null` is `None`,
      objects are dicts with string keys, arrays are lists. JSON numbers
      with a fraction are not modelled. */
  datatype Json =
    | JNull
    | JBool(boolean: bool)
    | JInt(number: int)
    | JStr(text: string)
    | JList(items: seq<Json>)
    | JMap(fields: map<string, Json>)

  /** The name of the Python type of a decoded value, as it appears in the
      interpreter's TypeError messages. */
  function TypeName(j: Json): string {
    match j
    case JNull => "NoneType"
    case JBool(_) => "bool"
    case JInt(_) => "int"
    case JStr(_) => "str"
    case JList(_) => "list"
    case JMap(_) => "dict"
  }

  /** Values a Python dict lookup accepts as a key; lists and dicts are
      unhashable. */
  predicate IsHashable(j: Json) {
    !j.JList? && !j.JMap?
  }

  predicate IsDigit(c: char) {
    '0' <= c <= '9'
  }

  function DigitChar(d: nat): (c: char)
    requires d < 10
    ensures IsDigit(c)
  {
    ('0' as int + d) as char
  }

  /** Decimal text of a natural number, without leading zeros. */
  function NatString(n: nat): (r: string)
    ensures |r| >= 1
    ensures forall k :: 0 <= k < |r| ==> IsDigit(r[k])
    ensures |r| > 1 ==> r[0] != '0'
  {
    if n < 10 then [DigitChar(n)] else NatString(n / 10) + [DigitChar(n % 10)]
  }

  /** Python's `str(n)` for an int. */
  function IntString(n: int): string {
    if n < 0 then "-" + NatString(-n) else NatString(n)
  }

  /** The number a string of decimal digits denotes: the reading direction
      of NatString. */
  function DigitsValue(s: string): int
    requires forall k :: 0 <= k < |s| ==> IsDigit(s[k])
  {
    if s == [] then 0
    else 10 * DigitsValue(s[..|s| - 1]) + (s[|s| - 1] as int - '0' as int)
  }

  lemma {:induction false} NatStringRoundTrip(n: nat)
    ensures DigitsValue(NatString(n)) == n
  {
    if n >= 10 {
      var p := NatString(n / 10);
      assert (p + [DigitChar(n % 10)])[..|p|] == p;
      NatStringRoundTrip(n / 10);
    }
  }

  /** The text of an integer starts with a minus sign exactly when the
      integer is negative. */
  lemma IntStringSign(n: int)
    ensures |IntString(n)| >= 1
    ensures IntString(n)[0] == '-' <==> n < 0
  {
    if n >= 0 {
      assert IsDigit(NatString(n)[0]);
    }
  }

  lemma NatStringInjective(m: nat, n: nat)
    requires NatString(m) == NatString(n)
    ensures m == n
  {
    NatStringRoundTrip(m);
    NatStringRoundTrip(n);
  }

  /** Different integers are rendered as different texts. */
  lemma IntStringInjective(a: int, b: int)
    requires IntString(a) == IntString(b)
    ensures a == b
  {
    IntStringSign(a);
    IntStringSign(b);
    if a < 0 {
      assert NatString(-a) == IntString(a)[1..];
      assert NatString(-b) == IntString(b)[1..];
      NatStringInjective(-a, -b);
    } else {
      NatStringInjective(a, b);
    }
  }

  /** Python's `str()` of a decoded value, as an f-string interpolates it.
      Arrays and objects are rendered as fixed placeholders: their Python
      repr, which quotes the strings inside them and, for an object,
      follows its key order, is not modelled. */
  function Show(j: Json): (r: string)
    ensures j.JStr? ==> r == j.text
    ensures j.JInt? ==> r == IntString(j.number)
    ensures j.JNull? ==> r == "None"
    ensures j.JBool? ==> r == if j.boolean then "True" else "False"
  {
    match j
    case JNull => "None"
    case JBool(b) => if b then "True" else "False"
    case JInt(n) => IntString(n)
    case JStr(s) => s
    case JList(_) => "[...]"
    case JMap(_) => "{...}"
  }

  /** Python's `pattern in text` for two strings: substring search. */
  predicate Contains(text: string, pattern: string)
    decreases |text|
  {
    |pattern| <= |text| && (text[..|pattern|] == pattern || Contains(text[1..], pattern))
  }
}
