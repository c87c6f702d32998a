/**
 * The JavaScript runtime the service is written against: dynamically typed
 * payload values, truthiness, thrown errors, and the built-in string
 * operations (`trim`, `toLowerCase`, `includes`, `join`) it relies on.
 */
module Js {

  /** An abstract clock reading; `new Date().toISOString()` becomes a parameter. */
  type Tick = nat

  datatype Option<+T> = None | Some(value: T)

  /** What a `throw` carries: an `Error` with its message, or a runtime `TypeError`. */
  datatype Failure = Error(message: string) | TypeError

  /** The outcome of a call that may throw. */
  datatype Result<+T> = Ok(value: T) | Err(error: Failure)

  /** The outcome of a call that may throw and otherwise returns nothing useful. */
  datatype Outcome = Pass | Fail(error: Failure)

  /**
   * A dynamically typed value as it appears in a request payload.
   * `Undefined` also stands for a key that is not present at all.
   * Numbers are integers in this model.
   */
  datatype Value = Undefined | Null | Bool(b: bool) | Num(n: int) | Str(s: string) | Other

  /** JavaScript truthiness (`!!v`). */
  predicate Truthy(v: Value) {
    match v
    case Undefined => false
    case Null => false
    case Bool(b) => b
    case Num(n) => n != 0
    case Str(s) => s != ""
    case Other => true
  }

  /** `v === undefined || v === null` */
  predicate IsNullish(v: Value) {
    v.Undefined? || v.Null?
  }

  /** `typeof v === 'number' && !(v <= 0)` */
  predicate IsPositiveNumber(v: Value) {
    v.Num? && v.n > 0
  }

  /** The characters `String.prototype.trim` removes: ECMAScript WhiteSpace and LineTerminator. */
  predicate IsWhitespace(c: char) {
    var n := c as int;
    n == 0x09 || n == 0x0A || n == 0x0B || n == 0x0C || n == 0x0D || n == 0x20 ||
    n == 0xA0 || n == 0x1680 || (0x2000 <= n <= 0x200A) || n == 0x2028 || n == 0x2029 ||
    n == 0x202F || n == 0x205F || n == 0x3000 || n == 0xFEFF
  }

  /** Every character of `s` is whitespace (the empty string included). */
  predicate IsBlank(s: string) {
    forall i :: 0 <= i < |s| ==> IsWhitespace(s[i])
  }

  /** Neither empty nor starting or ending with whitespace: what `trim` yields on a non-blank string. */
  predicate IsTrimmedNonEmpty(s: string) {
    s != [] && !IsWhitespace(s[0]) && !IsWhitespace(s[|s| - 1])
  }

  /** Every character of `s` from index `lo` up to (not including) `hi` is whitespace. */
  predicate BlankBetween(s: string, lo: int, hi: int) {
    forall i :: lo <= i < hi && 0 <= i < |s| ==> IsWhitespace(s[i])
  }

  /** Where the leading whitespace of `s[i..]` ends: the first non-whitespace index at or after `i`, or `|s|`. */
  function SkipBlanks(s: string, i: nat): (k: nat)
    requires i <= |s|
    ensures i <= k <= |s| && BlankBetween(s, i, k)
    ensures k < |s| ==> !IsWhitespace(s[k])
    decreases |s| - i
  {
    if i < |s| && IsWhitespace(s[i]) then SkipBlanks(s, i + 1) else i
  }

  /** Where the trailing whitespace of `s[lo..hi]` starts: the end of its last non-whitespace character, or `lo`. */
  function SkipBlanksBack(s: string, lo: nat, hi: nat): (k: nat)
    requires lo <= hi <= |s|
    ensures lo <= k <= hi && BlankBetween(s, k, hi)
    ensures lo < k ==> !IsWhitespace(s[k - 1])
    decreases hi
  {
    if lo < hi && IsWhitespace(s[hi - 1]) then SkipBlanksBack(s, lo, hi - 1) else hi
  }

  /** The index at which `s.trim()` starts. */
  function TrimFrom(s: string): nat
    ensures TrimFrom(s) <= |s|
  {
    SkipBlanks(s, 0)
  }

  /** The index at which `s.trim()` ends. */
  function TrimTo(s: string): nat
    ensures TrimFrom(s) <= TrimTo(s) <= |s|
  {
    SkipBlanksBack(s, TrimFrom(s), |s|)
  }

  /** `s.trim()`: the leading and the trailing whitespace dropped. */
  function Trim(s: string): string {
    s[TrimFrom(s)..TrimTo(s)]
  }

  /** `s.trim() === ''` exactly when `s` consists of whitespace only. */
  lemma TrimEmptyIff(s: string)
    ensures Trim(s) == "" <==> IsBlank(s)
  {
    var k, m := TrimFrom(s), TrimTo(s);
    if Trim(s) == "" {
      assert k == m && BlankBetween(s, m, |s|);
      assert k == |s|;
      assert BlankBetween(s, 0, k);
    } else {
      assert !IsWhitespace(s[k]);
    }
  }

  /** A non-blank string trims to a non-empty string without surrounding whitespace. */
  lemma TrimShape(s: string)
    requires !IsBlank(s)
    ensures IsTrimmedNonEmpty(Trim(s))
  {
    TrimEmptyIff(s);
    var k, m := TrimFrom(s), TrimTo(s);
    assert Trim(s)[0] == s[k];
    assert Trim(s)[|Trim(s)| - 1] == s[m - 1];
  }

  /**
   * The trimmed string is the contiguous piece of the original that starts
   * where the leading whitespace ends, and what trimming drops before and
   * after it is whitespace only.
   */
  lemma TrimIsBlankFlankedInfix(s: string)
    ensures var k, r := TrimFrom(s), Trim(s);
      k + |r| <= |s| && r == s[k..k + |r|] &&
      (forall i :: 0 <= i < k ==> IsWhitespace(s[i])) &&
      (forall i :: k + |r| <= i < |s| ==> IsWhitespace(s[i]))
  {
    var k, m := TrimFrom(s), TrimTo(s);
    assert BlankBetween(s, 0, k) && BlankBetween(s, m, |s|);
  }

  /** A string that neither starts nor ends with whitespace is not blank, and trimming leaves it as it is. */
  lemma TrimKeepsTrimmed(s: string)
    requires IsTrimmedNonEmpty(s)
    ensures !IsBlank(s) && Trim(s) == s
  {
    assert !IsWhitespace(s[0]);
    assert TrimFrom(s) == 0;
    assert TrimTo(s) == |s|;
    assert s[0..|s|] == s;
  }

  /** Trimming twice is trimming once. */
  lemma TrimIdempotent(s: string)
    ensures Trim(Trim(s)) == Trim(s)
  {
    if IsBlank(s) {
      TrimEmptyIff(s);
    } else {
      TrimShape(s);
      TrimKeepsTrimmed(Trim(s));
    }
  }

  /** `v && typeof v === 'string' && v.trim() !== ''`: a string with a non-whitespace character. */
  predicate IsNonBlankString(v: Value) {
    Truthy(v) && v.Str? && Trim(v.s) != ""
  }

  lemma NonBlankStringIff(v: Value)
    ensures IsNonBlankString(v) <==> v.Str? && !IsBlank(v.s)
  {
    if v.Str? {
      TrimEmptyIff(v.s);
    }
  }

  /** `c.toLowerCase()` restricted to ASCII letters; every other character is left as it is. */
  function LowerChar(c: char): char {
    if 'A' <= c <= 'Z' then (c as int - 'A' as int + 'a' as int) as char else c
  }

  /** `s.toLowerCase()` (ASCII letters only). */
  function ToLower(s: string): (r: string)
    ensures |r| == |s|
    ensures forall i :: 0 <= i < |s| ==> r[i] == LowerChar(s[i])
  {
    seq(|s|, i requires 0 <= i < |s| => LowerChar(s[i]))
  }

  /** `needle` occurs in `hay` starting at index `i`. */
  predicate OccursAt(hay: string, needle: string, i: int) {
    0 <= i <= |hay| - |needle| && hay[i..i + |needle|] == needle
  }

  /** `hay.includes(needle)` */
  predicate Includes(hay: string, needle: string) {
    exists i :: 0 <= i <= |hay| - |needle| && OccursAt(hay, needle, i)
  }

  /** `parts.join(sep)` */
  function Join(parts: seq<string>, sep: string): string {
    if parts == [] then ""
    else if |parts| == 1 then parts[0]
    else parts[0] + sep + Join(parts[1..], sep)
  }
}
