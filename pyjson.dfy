/**
 * The values `json.loads` hands to the engine, and the Python operations the
 * engine applies to them: `dict.get`, `key in dict`, truthiness (`if x:`),
 * `str(x)`, `int(x)`, iteration with `for`, and the exceptions these raise.
 */
module PyJson {
  import opened Wrappers
  import opened PyText

  /**
   * A decoded JSON value. An object keeps the dict's entries in insertion
   * order; a dict built by the decoder has distinct keys.
   */
  datatype Json =
    | JNull
    | JBool(b: bool)
    | JInt(i: int)
    | JStr(s: string)
    | JArr(items: seq<Json>)
    | JObj(fields: seq<(string, Json)>)

  /** `json.loads`: decodes a text or fails with the decoder's message. */
  type Parser = string -> Result<Json, string>

  /** The exceptions the modelled code can raise; `msg` is what `str(e)` gives. */
  datatype PyError =
    | DecodeError(msg: string)
    | ValueError(msg: string)
    | TypeError(msg: string)
    | AttributeError(msg: string)

  /** `key in d`. */
  predicate HasKey(fields: seq<(string, Json)>, key: string) {
    exists k :: 0 <= k < |fields| && fields[k].0 == key
  }

  /** `d.get(key, default)`. */
  function DictGet(fields: seq<(string, Json)>, key: string, default: Json): (v: Json)
    ensures !HasKey(fields, key) ==> v == default
    ensures HasKey(fields, key) ==> exists k :: 0 <= k < |fields| && fields[k] == (key, v)
  {
    if fields == [] then default
    else if fields[0].0 == key then fields[0].1
    else
      var v := DictGet(fields[1..], key, default);
      assert HasKey(fields, key) ==> HasKey(fields[1..], key) by {
        if HasKey(fields, key) {
          var k :| 0 <= k < |fields| && fields[k].0 == key;
          assert k != 0 && fields[1..][k - 1].0 == key;
        }
      }
      assert !HasKey(fields, key) ==> !HasKey(fields[1..], key) by {
        if HasKey(fields[1..], key) {
          var k :| 0 <= k < |fields[1..]| && fields[1..][k].0 == key;
          assert fields[k + 1].0 == key;
        }
      }
      assert forall k :: 0 <= k < |fields[1..]| ==> fields[1..][k] == fields[k + 1];
      v
  }

  /** Python truthiness: `None`, `False`, `0`, and empty strings, lists and dicts are false. */
  predicate Truthy(j: Json) {
    match j
    case JNull => false
    case JBool(b) => b
    case JInt(i) => i != 0
    case JStr(s) => s != []
    case JArr(xs) => xs != []
    case JObj(fs) => fs != []
  }

  /** `type(x).__name__`. */
  function TypeName(j: Json): string {
    match j
    case JNull => "NoneType"
    case JBool(_) => "bool"
    case JInt(_) => "int"
    case JStr(_) => "str"
    case JArr(_) => "list"
    case JObj(_) => "dict"
  }

  /** `str(x)` of `None`, a boolean or an integer. */
  function ScalarStr(j: Json): string
    requires j.JNull? || j.JBool? || j.JInt?
  {
    match j
    case JNull => "None"
    case JBool(b) => if b then "True" else "False"
    case JInt(i) => IntToString(i)
  }

  /** `repr(x)`, with every string shown between single quotes. */
  function Repr(j: Json): string
    decreases j, 0
  {
    match j
    case JStr(s) => "'" + s + "'"
    case JArr(xs) =>
      "[" + Join(", ", seq(|xs|, i requires 0 <= i < |xs| => Repr(xs[i]))) + "]"
    case JObj(fs) =>
      "{" + Join(", ", seq(|fs|, i requires 0 <= i < |fs| => "'" + fs[i].0 + "': " + Repr(fs[i].1))) + "}"
    case _ => ScalarStr(j)
  }

  /** `str(x)`: a string is itself, anything else is rendered; only `str('')` is empty. */
  function Str(j: Json): (r: string)
    ensures r == [] <==> j == JStr([])
    decreases j, 1
  {
    match j
    case JStr(s) => s
    case JArr(_) => Repr(j)
    case JObj(_) => Repr(j)
    case _ => ScalarStr(j)
  }

  /** `for x in j`: lists yield their items, dicts their keys, strings their characters. */
  function Iterate(j: Json): (r: Option<seq<Json>>)
    ensures j.JArr? ==> r == Some(j.items)
    ensures (j.JNull? || j.JBool? || j.JInt?) ==> r == None
  {
    match j
    case JArr(xs) => Some(xs)
    case JObj(fs) => Some(seq(|fs|, i requires 0 <= i < |fs| => JStr(fs[i].0)))
    case JStr(s) => Some(seq(|s|, i requires 0 <= i < |s| => JStr([s[i]])))
    case _ => None
  }

  predicate IsDigit(c: char) {
    '0' <= c <= '9'
  }

  /** Decimal digits with single underscores between them, as `int()` accepts. */
  predicate WellFormedDigits(d: string) {
    && d != []
    && IsDigit(d[0])
    && IsDigit(d[|d| - 1])
    && forall i :: 0 <= i < |d| ==> IsDigit(d[i]) || (d[i] == '_' && i + 1 < |d| && IsDigit(d[i + 1]))
  }

  /** The value of a digit string, skipping underscores. */
  function DigitsValue(d: string): (v: nat)
    decreases |d|
  {
    if d == [] then 0
    else
      var c := d[|d| - 1];
      var v := DigitsValue(d[..|d| - 1]);
      if IsDigit(c) then 10 * v + (c as int - '0' as int) else v
  }

  /** The integer a stripped literal denotes: an optional sign, then digits. */
  function SignedDigits(body: string): (r: Option<int>)
    ensures r.Some? ==> body != []
  {
    if body == [] then None
    else
      var negative := body[0] == '-';
      var digits := if body[0] == '-' || body[0] == '+' then body[1..] else body;
      if !WellFormedDigits(digits) then None
      else
        var magnitude: int := DigitsValue(digits);
        Some(if negative then -magnitude else magnitude)
  }

  /** The integer a string literal denotes for `int(s)`, if it is one. */
  function IntLiteral(s: string): (r: Option<int>)
    ensures r.Some? ==> Strip(s) != []
  {
    SignedDigits(Strip(s))
  }

  /** The start of the `ValueError` message of `int()` on a string that is not an integer literal. */
  const InvalidLiteral: string := "invalid literal for int() with base 10: "

  /** The start of the `TypeError` message of `int()` on a value it does not convert. */
  const NotANumber: string := "int() argument must be a string, a bytes-like object or a real number, not '"

  /** `int(x)`: integers and booleans convert, integer literals parse, anything else raises. */
  function ToInt(j: Json): (r: Result<int, PyError>)
    ensures j.JInt? ==> r == Success(j.i)
    ensures j.JBool? ==> r == Success(if j.b then 1 else 0)
    ensures (j.JNull? || j.JArr? || j.JObj?) ==> r.Failure? && r.error.TypeError?
    ensures j.JStr? ==> (r.Success? <==> IntLiteral(j.s).Some?)
    ensures j.JStr? && r.Success? ==> r.value == IntLiteral(j.s).value
    ensures j.JStr? && r.Failure? ==> r.error == ValueError(InvalidLiteral + Repr(j))
  {
    match j
    case JInt(i) => Success(i)
    case JBool(b) => Success(if b then 1 else 0)
    case JStr(s) =>
      (match IntLiteral(s)
       case Some(v) => Success(v)
       case None => Failure(ValueError(InvalidLiteral + Repr(j))))
    case _ =>
      Failure(TypeError(NotANumber + TypeName(j) + "'"))
  }

  /** The digit `DigitChar` writes is read back as its value. */
  lemma DigitCharValue(d: nat)
    requires d < 10
    ensures IsDigit(DigitChar(d)) && DigitChar(d) as int - '0' as int == d
  {
    if d == 0 {} else if d == 1 {} else if d == 2 {} else if d == 3 {} else if d == 4 {}
    else if d == 5 {} else if d == 6 {} else if d == 7 {} else if d == 8 {} else {}
  }

  /** `str(n)` is made of decimal digits only, and reading them gives `n` back. */
  lemma {:induction false} NatToStringValue(n: nat)
    ensures forall k :: 0 <= k < |NatToString(n)| ==> IsDigit(NatToString(n)[k])
    ensures DigitsValue(NatToString(n)) == n
    decreases n
  {
    DigitCharValue(n % 10);
    if n >= 10 {
      var head := NatToString(n / 10);
      NatToStringValue(n / 10);
      assert NatToString(n) == head + [DigitChar(n % 10)];
      assert NatToString(n)[..|NatToString(n)| - 1] == head;
    }
  }

  /** A string with no whitespace at its ends is left alone by `strip()`. */
  lemma StripUnspaced(s: string)
    requires s != [] && !IsSpace(s[0]) && !IsSpace(s[|s| - 1])
    ensures Strip(s) == s
  {
    assert RStrip(s) == s;
  }

  /** A run of digits, with or without a minus sign, is read as its value. */
  lemma SignedDigitsOf(negative: bool, digits: string)
    requires digits != [] && forall k :: 0 <= k < |digits| ==> IsDigit(digits[k])
    ensures var v: int := DigitsValue(digits);
      SignedDigits(if negative then "-" + digits else digits) == Some(if negative then -v else v)
  {
    assert WellFormedDigits(digits);
    if negative {
      assert ("-" + digits)[0] == '-' && ("-" + digits)[1..] == digits;
    } else {
      assert IsDigit(digits[0]);
    }
  }

  /** `str(i)` has no whitespace for `strip()` to remove. */
  lemma IntToStringUnspaced(i: int)
    ensures Strip(IntToString(i)) == IntToString(i)
  {
    var digits := NatToString(if i < 0 then -i else i);
    NatToStringValue(if i < 0 then -i else i);
    var text := IntToString(i);
    assert IsDigit(text[|text| - 1]) && (IsDigit(text[0]) || text[0] == '-');
    StripUnspaced(text);
  }

  /** `int(str(i)) == i`: the literal `str` writes is the one `int()` reads. */
  lemma IntLiteralOfIntToString(i: int)
    ensures IntLiteral(IntToString(i)) == Some(i)
  {
    var n: nat := if i < 0 then -i else i;
    NatToStringValue(n);
    SignedDigitsOf(i < 0, NatToString(n));
    IntToStringUnspaced(i);
  }
}
