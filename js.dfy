/**
 * The JavaScript value semantics the client code relies on: untyped JSON as
 * received from the server, optional chaining (`?.`), nullish coalescing
 * (`??`), logical or (`||`), truthiness, `String(...)` coercion,
 * `String.prototype.trim` and integer-to-decimal conversion.
 */
module Js {

  datatype Option<+T> = None | Some(value: T)

  /** A value or a thrown error (the error message). */
  datatype Result<+T> = Ok(value: T) | Err(error: string)

  /** A parsed JSON value. Numbers are modelled as integers. */
  datatype Json =
    | JNull
    | JBool(b: bool)
    | JNum(n: int)
    | JStr(s: string)
    | JArr(elems: seq<Json>)
    | JObj(fields: map<string, Json>)

  /** A JavaScript value reached through an untyped (`any`) response: `None` is `undefined`. */
  type Any = Option<Json>

  /** `v?.key`: the property of an object, `undefined` for every other value. */
  function Get(v: Any, key: string): Any
  {
    match v
    case Some(JObj(m)) => if key in m then Some(m[key]) else None
    case _ => None
  }

  /** `v === null || v === undefined` */
  predicate Nullish(v: Any)
  {
    v == None || v == Some(JNull)
  }

  /** JavaScript truthiness: `undefined`, `null`, `false`, `0` and `""` are falsy. */
  predicate Truthy(v: Any)
  {
    match v
    case None => false
    case Some(JNull) => false
    case Some(JBool(b)) => b
    case Some(JNum(n)) => n != 0
    case Some(JStr(s)) => s != ""
    case Some(_) => true
  }

  /** `a ?? b` */
  function Coalesce(a: Any, b: Any): Any
  {
    if Nullish(a) then b else a
  }

  /** `a || b` */
  function Or(a: Any, b: Any): Any
  {
    if Truthy(a) then a else b
  }

  /** `Array.isArray(v)`, giving the elements. */
  function AsArray(v: Any): Option<seq<Json>>
  {
    match v
    case Some(JArr(es)) => Some(es)
    case _ => None
  }

  // ---------------------------------------------------------------------------
  // String.prototype.trim

  /** The WhiteSpace and LineTerminator code points of ECMAScript, which `trim` removes. */
  predicate IsJsSpace(c: char)
  {
    c == ' ' || c == '\t' || c == '\n' || c == '\r' || c == '\U{000B}' || c == '\U{000C}'
    || c == '\U{00A0}' || c == '\U{1680}' || ('\U{2000}' <= c <= '\U{200A}')
    || c == '\U{2028}' || c == '\U{2029}' || c == '\U{202F}' || c == '\U{205F}'
    || c == '\U{3000}' || c == '\U{FEFF}'
  }
  predicate AllSpace(s: string)
  {
    forall k :: 0 <= k < |s| ==> IsJsSpace(s[k])
  }

  function TrimStart(s: string): string
  {
    if |s| > 0 && IsJsSpace(s[0]) then TrimStart(s[1..]) else s
  }

  function TrimEnd(s: string): string
  {
    if |s| > 0 && IsJsSpace(s[|s| - 1]) then TrimEnd(s[..|s| - 1]) else s
  }

  /** `s.trim()` */
  function Trim(s: string): string
  {
    TrimEnd(TrimStart(s))
  }

  /** `s && s.trim().length > 0` for a string `s` (the empty string is falsy and blank). */
  predicate NonBlank(s: string)
  {
    |Trim(s)| > 0
  }

  /** The same test on an optional string argument (`undefined` is blank). */
  predicate NonBlankOpt(s: Option<string>)
  {
    s.Some? && NonBlank(s.value)
  }

  lemma AllSpaceCons(c: char, s: string)
    requires IsJsSpace(c) && AllSpace(s)
    ensures AllSpace([c] + s)
  {
    forall k | 0 <= k < |[c] + s|
      ensures IsJsSpace(([c] + s)[k])
    {
      if k > 0 {
        assert ([c] + s)[k] == s[k - 1];
      }
    }
  }

  lemma AllSpaceSnoc(s: string, c: char)
    requires AllSpace(s) && IsJsSpace(c)
    ensures AllSpace(s + [c])
  {
    forall k | 0 <= k < |s + [c]|
      ensures IsJsSpace((s + [c])[k])
    {
      if k < |s| {
        assert (s + [c])[k] == s[k];
      }
    }
  }

  /** `trimStart` cuts a prefix of white space and keeps the rest, which does not start with white space. */
  lemma {:induction false} TrimStartSpec(s: string)
    ensures |TrimStart(s)| <= |s| && TrimStart(s) == s[|s| - |TrimStart(s)|..]
    ensures AllSpace(s[..|s| - |TrimStart(s)|])
    ensures |TrimStart(s)| > 0 ==> !IsJsSpace(TrimStart(s)[0])
  {
    if |s| > 0 && IsJsSpace(s[0]) {
      var u := s[1..];
      TrimStartSpec(u);
      var n := |u| - |TrimStart(u)|;
      assert u[n..] == s[n + 1..];
      assert s[..n + 1] == [s[0]] + u[..n];
      AllSpaceCons(s[0], u[..n]);
    } else {
      assert s[..0] == [];
    }
  }

  /** `trimEnd` cuts a suffix of white space and keeps the rest, which does not end with white space. */
  lemma {:induction false} TrimEndSpec(s: string)
    ensures |TrimEnd(s)| <= |s| && TrimEnd(s) == s[..|TrimEnd(s)|]
    ensures AllSpace(s[|TrimEnd(s)|..])
    ensures |TrimEnd(s)| > 0 ==> !IsJsSpace(TrimEnd(s)[|TrimEnd(s)| - 1])
  {
    if |s| > 0 && IsJsSpace(s[|s| - 1]) {
      var p := s[..|s| - 1];
      TrimEndSpec(p);
      var j := |TrimEnd(p)|;
      assert p[..j] == s[..j];
      assert s[j..] == p[j..] + [s[|s| - 1]];
      AllSpaceSnoc(p[j..], s[|s| - 1]);
    } else {
      assert s[|s|..] == [];
    }
  }

  /** The part `trim` keeps is a contiguous slice, and everything cut away is white space. */
  lemma TrimSlice(s: string)
    ensures exists i, j :: 0 <= i <= j <= |s| && Trim(s) == s[i..j] && AllSpace(s[..i]) && AllSpace(s[j..])
  {
    var t := TrimStart(s);
    TrimStartSpec(s);
    TrimEndSpec(t);
    var i := |s| - |t|;
    var j := i + |Trim(s)|;
    assert Trim(s) == s[i..j] by { assert t[..|Trim(s)|] == s[i..j]; }
    assert AllSpace(s[j..]) by { assert t[|Trim(s)|..] == s[j..]; }
  }

  /** The part `trim` keeps neither starts nor ends with white space. */
  lemma TrimEdges(s: string)
    ensures |Trim(s)| > 0 ==> !IsJsSpace(Trim(s)[0]) && !IsJsSpace(Trim(s)[|Trim(s)| - 1])
  {
    var t := TrimStart(s);
    TrimStartSpec(s);
    TrimEndSpec(t);
    if |Trim(s)| > 0 {
      assert Trim(s)[0] == t[0];
    }
  }

  /**
   * `trim` removes exactly the leading and the trailing white space: its result
   * is a contiguous slice of `s` that neither starts nor ends with white space,
   * and everything cut away on either side is white space.
   */
  lemma TrimSpec(s: string)
    ensures exists i, j :: 0 <= i <= j <= |s| && Trim(s) == s[i..j] && AllSpace(s[..i]) && AllSpace(s[j..])
    ensures |Trim(s)| > 0 ==> !IsJsSpace(Trim(s)[0]) && !IsJsSpace(Trim(s)[|Trim(s)| - 1])
  {
    TrimSlice(s);
    TrimEdges(s);
  }

  /** A string is blank exactly when every character of it is white space. */
  lemma NonBlankIff(s: string)
    ensures NonBlank(s) <==> exists k :: 0 <= k < |s| && !IsJsSpace(s[k])
  {
    TrimSpec(s);
    var i, j :| 0 <= i <= j <= |s| && Trim(s) == s[i..j] && AllSpace(s[..i]) && AllSpace(s[j..]);
    if NonBlank(s) {
      assert s[i] == Trim(s)[0];
    } else {
      forall k | 0 <= k < |s| ensures IsJsSpace(s[k]) {
        if k < i { assert s[k] == s[..i][k]; } else { assert s[k] == s[j..][k - j]; }
      }
    }
  }

  lemma {:induction false} TrimStartFixed(s: string)
    requires |s| == 0 || !IsJsSpace(s[0])
    ensures TrimStart(s) == s
  {
  }

  lemma {:induction false} TrimEndFixed(s: string)
    requires |s| == 0 || !IsJsSpace(s[|s| - 1])
    ensures TrimEnd(s) == s
  {
  }

  /** Trimming is idempotent. */
  lemma TrimIdempotent(s: string)
    ensures Trim(Trim(s)) == Trim(s)
  {
    TrimSpec(s);
    var t := Trim(s);
    TrimStartFixed(t);
    TrimEndFixed(t);
  }

  // ---------------------------------------------------------------------------
  // Decimal text of integers: `String(n)` for an integer `n`

  function DigitChar(d: nat): char
    requires d < 10
  {
    "0123456789"[d]
  }

  predicate IsDigit(c: char)
  {
    '0' <= c <= '9'
  }

  function DigitValue(c: char): nat
    requires IsDigit(c)
  {
    (c as int) - ('0' as int)
  }

  predicate AllDigits(s: string)
  {
    forall k :: 0 <= k < |s| ==> IsDigit(s[k])
  }

  function NatToDecimal(n: nat): (r: string)
    ensures |r| > 0 && AllDigits(r)
  {
    if n < 10 then [DigitChar(n)] else NatToDecimal(n / 10) + [DigitChar(n % 10)]
  }

  /** `String(n)` for an integer: optional minus sign and decimal digits. */
  function IntToDecimal(n: int): string
  {
    if n < 0 then "-" + NatToDecimal(-n) else NatToDecimal(n)
  }

  function ParseDigits(s: string): nat
    requires AllDigits(s)
  {
    if |s| == 0 then 0 else ParseDigits(s[..|s| - 1]) * 10 + DigitValue(s[|s| - 1])
  }

  /** Reads back the decimal text of an integer, as the server does with a form field. */
  function ParseDecimal(s: string): Option<int>
  {
    if |s| > 1 && s[0] == '-' && AllDigits(s[1..]) then Some(0 - ParseDigits(s[1..]))
    else if |s| > 0 && AllDigits(s) then Some(ParseDigits(s))
    else None
  }

  lemma {:induction false} NatDecimalRoundTrip(n: nat)
    ensures ParseDigits(NatToDecimal(n)) == n
  {
    if n >= 10 {
      NatDecimalRoundTrip(n / 10);
      var s := NatToDecimal(n);
      assert s[..|s| - 1] == NatToDecimal(n / 10);
    }
  }

  /** A digit string reads back as its value, and with a leading minus sign as its negation. */
  lemma ParseDecimalOfDigits(t: string)
    requires |t| > 0 && AllDigits(t)
    ensures ParseDecimal(t) == Some(ParseDigits(t))
    ensures ParseDecimal("-" + t) == Some(0 - ParseDigits(t))
  {
    assert IsDigit(t[0]);
    var s := "-" + t;
    assert s[0] == '-' && s[1..] == t;
  }

  /** The decimal text of every integer reads back as that integer. */
  lemma DecimalRoundTrip(n: int)
    ensures ParseDecimal(IntToDecimal(n)) == Some(n)
  {
    var m: nat := if n < 0 then -n else n;
    var t := NatToDecimal(m);
    NatDecimalRoundTrip(m);
    ParseDecimalOfDigits(t);
    assert IntToDecimal(n) == if n < 0 then "-" + t else t;
  }

  // ---------------------------------------------------------------------------
  // String(v) coercion

  /** `String(v)` of a JSON value (an array joins its elements with commas, `null` elements as ""). */
  function ToJsString(v: Json): string
  {
    match v
    case JNull => "null"
    case JBool(b) => if b then "true" else "false"
    case JNum(n) => IntToDecimal(n)
    case JStr(s) => s
    case JArr(es) => JoinElements(es)
    case JObj(_) => "[object Object]"
  }

  function JoinElements(es: seq<Json>): string
    decreases es
  {
    if es == [] then ""
    else
      var head := if es[0] == JNull then "" else ToJsString(es[0]);
      if |es| == 1 then head else head + "," + JoinElements(es[1..])
  }
}
