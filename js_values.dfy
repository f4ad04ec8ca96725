/**
 * The slice of JavaScript's value domain that the project facade inspects:
 * undefined, null, booleans, numbers, strings, arrays and plain objects;
 * truthiness, loose equality with `null`, and `String.prototype.trim`.
 * Functions, symbols and bigints are not represented.
 */
module JsValues {

  /** A JavaScript string is a sequence of UTF-16 code units; `length` counts them. */
  newtype CodeUnit = x: int | 0 <= x < 0x1_0000

  type JsString = seq<CodeUnit>

  /**
   * A JavaScript value. Numbers are integers here (no NaN, no fractions);
   * arrays and objects are compared by contents, not by identity, and an
   * object is its own properties only (no prototype chain).
   */
  datatype JsValue =
    | Undefined
    | Null
    | Bool(b: bool)
    | Num(n: int)
    | Str(s: JsString)
    | Arr(elems: seq<JsValue>)
    | Obj(props: map<JsString, JsValue>)

  /** ToBoolean: the value an `if (v)` or a `!v` test sees. */
  predicate Truthy(v: JsValue)
  {
    match v
    case Undefined => false
    case Null => false
    case Bool(b) => b
    case Num(n) => n != 0
    case Str(s) => s != []
    case Arr(_) => true
    case Obj(_) => true
  }

  /** `v == null` with loose equality holds of exactly `null` and `undefined`. */
  predicate IsNullish(v: JsValue)
  {
    v.Undefined? || v.Null?
  }

  /**
   * The code units `String.prototype.trim` strips: the ECMAScript WhiteSpace
   * production (TAB, VT, FF, ZWNBSP and every space separator of category Zs)
   * and the LineTerminator production (LF, CR, LS, PS).
   */
  predicate IsWhitespace(c: CodeUnit)
  {
    || c == 0x0009 || c == 0x000B || c == 0x000C || c == 0xFEFF  // TAB, VT, FF, ZWNBSP
    || c == 0x000A || c == 0x000D || c == 0x2028 || c == 0x2029  // LF, CR, LS, PS
    || c == 0x0020 || c == 0x00A0 || c == 0x1680                 // Zs
    || (0x2000 <= c <= 0x200A) || c == 0x202F || c == 0x205F || c == 0x3000
  }

  /** The string starts or ends with a code unit that `trim` would strip. */
  predicate HasSurroundingWhitespace(s: JsString)
  {
    |s| > 0 && (IsWhitespace(s[0]) || IsWhitespace(s[|s| - 1]))
  }

  /** Strips the leading whitespace: what is removed is whitespace, and what remains does not start with any. */
  function TrimStart(s: JsString): (r: JsString)
    ensures |r| <= |s| && r == s[|s| - |r|..]
    ensures forall i :: 0 <= i < |s| - |r| ==> IsWhitespace(s[i])
    ensures r == [] || !IsWhitespace(r[0])
    decreases |s|
  {
    if s != [] && IsWhitespace(s[0]) then TrimStart(s[1..]) else s
  }

  /** Strips the trailing whitespace: what is removed is whitespace, and what remains does not end with any. */
  function TrimEnd(s: JsString): (r: JsString)
    ensures |r| <= |s| && r == s[..|r|]
    ensures forall i :: |r| <= i < |s| ==> IsWhitespace(s[i])
    ensures r == [] || !IsWhitespace(r[|r| - 1])
    decreases |s|
  {
    if s != [] && IsWhitespace(s[|s| - 1]) then TrimEnd(s[..|s| - 1]) else s
  }

  /**
   * `String.prototype.trim`. The result is a contiguous part of the input with
   * no surrounding whitespace, and it is as long as the input exactly when the
   * input has no surrounding whitespace (in which case it is the input itself).
   */
  function Trim(s: JsString): (r: JsString)
    ensures |r| <= |s|
    ensures !HasSurroundingWhitespace(r)
    ensures |r| == |s| <==> !HasSurroundingWhitespace(s)
    ensures !HasSurroundingWhitespace(s) ==> r == s
  {
    var t := TrimStart(s);
    assert |t| == |s| <==> s == [] || !IsWhitespace(s[0]) by {
      if |t| < |s| { assert IsWhitespace(s[0]); }
    }
    var r := TrimEnd(t);
    assert |r| == |t| <==> t == [] || !IsWhitespace(t[|t| - 1]) by {
      if |r| < |t| { assert IsWhitespace(t[|t| - 1]); }
    }
    assert |t| == |s| && s != [] ==> t[|t| - 1] == s[|s| - 1];
    r
  }

  /**
   * `r` is `s` with a whitespace prefix of length `k` and a whitespace suffix
   * removed, and nothing else changed.
   */
  predicate TrimmedAt(s: JsString, k: int, r: JsString)
  {
    && 0 <= k <= |s| - |r|
    && r == s[k..k + |r|]
    && (forall i :: 0 <= i < k ==> IsWhitespace(s[i]))
    && (forall i :: k + |r| <= i < |s| ==> IsWhitespace(s[i]))
  }

  /**
   * What `trim` returns: the input with only leading and trailing whitespace
   * removed. Together with the contract of `Trim` (nothing surrounding is
   * left), this fixes the result.
   */
  lemma TrimIsSlice(s: JsString)
    ensures exists k :: TrimmedAt(s, k, Trim(s))
  {
    var t := TrimStart(s);
    var r := TrimEnd(t);
    var k := |s| - |t|;
    assert Trim(s) == r;
    assert t == s[k..] && r == t[..|r|];
    assert r == s[k..k + |r|] by {
      assert s[k..][..|r|] == s[k..k + |r|];
    }
    assert forall i :: 0 <= i < k ==> IsWhitespace(s[i]);
    forall i | k + |r| <= i < |s|
      ensures IsWhitespace(s[i])
    {
      assert s[i] == t[i - k];
    }
    assert TrimmedAt(s, k, r);
  }

  /**
   * `trim` is characterised by its contents: any result of stripping a
   * whitespace prefix and suffix that leaves no surrounding whitespace is
   * exactly what `Trim` returns.
   */
  lemma TrimCharacterised(s: JsString, k: int, r: JsString)
    requires TrimmedAt(s, k, r) && !HasSurroundingWhitespace(r)
    ensures Trim(s) == r
  {
    TrimIsSlice(s);
    var k' :| TrimmedAt(s, k', Trim(s));
  }
}
