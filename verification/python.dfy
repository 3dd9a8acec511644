/**
 * The Python values the bot works with: what `json.load` and `response.json()`
 * produce, their exact runtime type (`type(v)`), their truthiness (`bool(v)`)
 * and the decimal text `str(n)` of an integer.
 */
module Python {

  /** A JSON value as Python holds it. A JSON object becomes a dict. */
  datatype Value =
    | Null
    | Bool(b: bool)
    | Int(i: int)
    | Float(r: real)
    | Str(s: string)
    | List(items: seq<Value>)
    | Dict(fields: map<string, Value>)

  /** The classes `type(v)` can return for a JSON value. */
  datatype PyType = NoneType | BoolType | IntType | FloatType | StrType | ListType | DictType

  /**
   * `type(v)`: the exact class. Although Python's bool is a subclass of int,
   * `type(True) is int` is false, so a Bool has its own type here.
   */
  function TypeOf(v: Value): PyType
  {
    match v
    case Null => NoneType
    case Bool(_) => BoolType
    case Int(_) => IntType
    case Float(_) => FloatType
    case Str(_) => StrType
    case List(_) => ListType
    case Dict(_) => DictType
  }

  /** `bool(v)`: None, False, zero and empty containers are falsy. */
  predicate Truthy(v: Value)
  {
    match v
    case Null => false
    case Bool(b) => b
    case Int(i) => i != 0
    case Float(r) => r != 0.0
    case Str(s) => s != ""
    case List(items) => items != []
    case Dict(fields) => fields != map[]
  }

  /** `d.get(key)`: the value stored under key, or None when the key is absent. */
  function DictGet(fields: map<string, Value>, key: string): Value
  {
    if key in fields then fields[key] else Null
  }

  /** `s.startswith(prefix)`. */
  predicate StartsWith(s: string, prefix: string)
  {
    |prefix| <= |s| && s[..|prefix|] == prefix
  }

  /** The character of a decimal digit. */
  function DigitChar(d: nat): char
    requires d < 10
  {
    (d + '0' as int) as char
  }

  /** The decimal digits of n, most significant first, without leading zeros. */
  function Digits(n: nat): (s: string)
    ensures |s| >= 1
    ensures forall k | 0 <= k < |s| :: '0' <= s[k] <= '9'
  {
    if n < 10 then [DigitChar(n)] else Digits(n / 10) + [DigitChar(n % 10)]
  }

  /** `str(n)` for an int. */
  function IntToStr(n: int): string
  {
    if n < 0 then "-" + Digits(-n) else Digits(n)
  }

  /** The most significant decimal digit of n. */
  function LeadingDigit(n: nat): (d: nat)
    ensures d < 10
    ensures n > 0 ==> d > 0
  {
    if n < 10 then n else LeadingDigit(n / 10)
  }

  /** The first character `str(n)` writes for a non-negative n is its leading digit. */
  lemma {:induction false} DigitsStartWithLeadingDigit(n: nat)
    ensures Digits(n)[0] == DigitChar(LeadingDigit(n))
  {
    if n >= 10 {
      DigitsStartWithLeadingDigit(n / 10);
    }
  }

  /** Whether `str(n)` starts with the digit c depends only on the sign and the leading digit. */
  lemma IntToStrStartsWithDigit(n: int, d: nat)
    requires d < 10
    ensures StartsWith(IntToStr(n), [DigitChar(d)]) <==> n >= 0 && LeadingDigit(n) == d
  {
    var s := IntToStr(n);
    assert StartsWith(s, [DigitChar(d)]) <==> s[0] == DigitChar(d) by {
      assert s[..1] == [s[0]];
    }
    if n >= 0 {
      DigitsStartWithLeadingDigit(n);
    } else {
      assert s[0] == '-';
    }
  }
}
