/** The few JavaScript semantics the request handlers rely on: the values a JSON
    request body can hold, truthiness (`!x`, `!!x`), `typeof`,
    `String.prototype.trim` and `String.prototype.startsWith`. */
module Js {

  /** A value read from a parsed JSON body. A field the body does not carry reads as
      `Undefined`. The handlers only ever look at the truthiness and the `typeof` of an
      array or an object, so those carry no contents. */
  datatype JsValue =
    | Undefined
    | Null
    | Boolean(bval: bool)
    | Number(nval: real)
    | String(sval: string)
    | Array
    | Object

  /** ToBoolean: what `!!v` yields. JSON numbers are finite, so NaN does not arise. */
  predicate Truthy(v: JsValue)
  {
    match v
    case Undefined => false
    case Null => false
    case Boolean(b) => b
    case Number(x) => x != 0.0
    case String(s) => s != ""
    case Array => true
    case Object => true
  }

  /** The strings the `typeof` operator yields for these values. */
  datatype JsType = UndefinedType | ObjectType | BooleanType | NumberType | StringType

  /** The `typeof` operator; arrays and null are both "object". */
  function TypeOf(v: JsValue): JsType
  {
    match v
    case Undefined => UndefinedType
    case Null => ObjectType
    case Boolean(_) => BooleanType
    case Number(_) => NumberType
    case String(_) => StringType
    case Array => ObjectType
    case Object => ObjectType
  }

  /** A destructuring default `{ x = d } = obj`: it applies only when the field is undefined. */
  function WithDefault(v: JsValue, d: JsValue): JsValue
  {
    if v == Undefined then d else v
  }

  /** The `done = false` default changes nothing once the value is coerced with `!!`:
      `undefined` is already falsy. */
  lemma DoneDefaultInert(v: JsValue)
    ensures Truthy(WithDefault(v, Boolean(false))) == Truthy(v)
  {
  }

  /** The characters `trim` removes: ECMAScript WhiteSpace and LineTerminator. */
  predicate IsJsSpace(c: char)
  {
    // tab, line feed, vertical tab, form feed, carriage return, space
    c == '\t' || c == '\n' || c == '\U{B}' || c == '\U{C}' || c == '\r' || c == ' ' ||
    // no-break space, ogham space mark, en quad .. hair space
    c == '\U{A0}' || c == '\U{1680}' || ('\U{2000}' <= c <= '\U{200A}') ||
    // line separator, paragraph separator, narrow no-break space, medium mathematical space
    c == '\U{2028}' || c == '\U{2029}' || c == '\U{202F}' || c == '\U{205F}' ||
    // ideographic space, byte order mark
    c == '\U{3000}' || c == '\U{FEFF}'
  }

  predicate AllSpace(s: string)
  {
    forall k :: 0 <= k < |s| ==> IsJsSpace(s[k])
  }

  /** `s.trim()`: what is left once every leading and trailing space is cut off; it neither
      starts nor ends with a space, and it is empty exactly when `s` is all spaces. */
  function Trim(s: string): (r: string)
    ensures |r| <= |s|
    ensures r == [] <==> AllSpace(s)
    ensures r != [] ==> !IsJsSpace(r[0]) && !IsJsSpace(r[|r| - 1])
  {
    if |s| > 0 && IsJsSpace(s[0]) then
      assert AllSpace(s) <==> AllSpace(s[1..]) by {
        assert forall k :: 0 < k < |s| ==> s[k] == s[1..][k - 1];
      }
      Trim(s[1..])
    else if |s| > 0 && IsJsSpace(s[|s| - 1]) then
      assert AllSpace(s) <==> AllSpace(s[..|s| - 1]) by {
        assert forall k :: 0 <= k < |s| - 1 ==> s[k] == s[..|s| - 1][k];
      }
      Trim(s[..|s| - 1])
    else
      s
  }

  /** `r` sits in `s` at offset `i` with only spaces before and after it. */
  predicate InfixAt(s: string, r: string, i: int)
  {
    0 <= i <= |s| - |r| && r == s[i..i + |r|] && AllSpace(s[..i]) && AllSpace(s[i + |r|..])
  }

  lemma InfixAfterSpace(s: string, r: string, i: int)
    requires |s| > 0 && IsJsSpace(s[0]) && InfixAt(s[1..], r, i)
    ensures InfixAt(s, r, i + 1)
  {
    var t := s[1..];
    assert s[i + 1..i + 1 + |r|] == t[i..i + |r|];
    assert s[..i + 1] == [s[0]] + t[..i];
    assert s[i + 1 + |r|..] == t[i + |r|..];
  }

  lemma InfixBeforeSpace(s: string, r: string, i: int)
    requires |s| > 0 && IsJsSpace(s[|s| - 1]) && InfixAt(s[..|s| - 1], r, i)
    ensures InfixAt(s, r, i)
  {
    var t := s[..|s| - 1];
    assert s[i..i + |r|] == t[i..i + |r|];
    assert s[..i] == t[..i];
    assert s[i + |r|..] == t[i + |r|..] + [s[|s| - 1]];
  }

  /** The trimmed string is a contiguous part of `s` with only spaces before and after it. */
  lemma {:induction false} TrimIsInfix(s: string)
    ensures exists i :: InfixAt(s, Trim(s), i)
  {
    var r := Trim(s);
    if |s| > 0 && IsJsSpace(s[0]) {
      TrimIsInfix(s[1..]);
      var i :| InfixAt(s[1..], r, i);
      InfixAfterSpace(s, r, i);
    } else if |s| > 0 && IsJsSpace(s[|s| - 1]) {
      TrimIsInfix(s[..|s| - 1]);
      var i :| InfixAt(s[..|s| - 1], r, i);
      InfixBeforeSpace(s, r, i);
    } else {
      assert s[0..0 + |r|] == s && s[..0] == [] && s[0 + |r|..] == [];
      assert InfixAt(s, r, 0);
    }
  }

  /** Trimming twice is trimming once. */
  lemma {:induction false} TrimIdempotent(s: string)
    ensures Trim(Trim(s)) == Trim(s)
  {
    var r := Trim(s);
    if r != [] {
      assert !IsJsSpace(r[0]) && !IsJsSpace(r[|r| - 1]);
    }
  }

  /** `s.startsWith(prefix)`. */
  predicate StartsWith(s: string, prefix: string)
  {
    |prefix| <= |s| && s[..|prefix|] == prefix
  }
}
