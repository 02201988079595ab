/** The few JavaScript value semantics the listing logic relies on: optional
    values, `Number(...)` coercion with NaN, ASCII `toLowerCase`, `trim`,
    `includes` and `split`. */
module JsValues {

  datatype Option<+T> = None | Some(value: T) {
    function GetOr(default: T): T {
      match this
      case Some(v) => v
      case None => default
    }
  }

  /** A JavaScript number as far as this model needs it: an integer, or NaN
      (what `Number` gives for a string that is not numeric). */
  datatype Number = Finite(n: int) | NaN

  /** `x < bound` in JavaScript: every comparison with NaN is false. */
  predicate LessThan(x: int, bound: Number) {
    bound.Finite? && x < bound.n
  }

  /** `x > bound` in JavaScript. */
  predicate GreaterThan(x: int, bound: Number) {
    bound.Finite? && x > bound.n
  }

  // ---------------------------------------------------------------- characters

  predicate IsDigit(c: char) { '0' <= c <= '9' }

  predicate IsUpper(c: char) { 'A' <= c <= 'Z' }

  /** The characters of the regular-expression class `\w`. */
  predicate IsWordChar(c: char) {
    IsDigit(c) || IsUpper(c) || ('a' <= c <= 'z') || c == '_'
  }

  /** The ASCII part of JavaScript's white space set used by `trim`. */
  predicate IsSpace(c: char) {
    c == ' ' || c == '\t' || c == '\n' || c == '\r' || c == '\U{000B}' || c == '\U{000C}'
  }

  function LowerChar(c: char): (r: char)
    ensures !IsUpper(r)
    ensures IsUpper(c) ==> r as int == c as int + 32
    ensures !IsUpper(c) ==> r == c
  {
    if IsUpper(c) then (c as int + 32) as char else c
  }

  /** `s.toLowerCase()`, restricted to ASCII letters. */
  function ToLower(s: string): (r: string)
    ensures |r| == |s|
    ensures forall i :: 0 <= i < |s| ==> r[i] == LowerChar(s[i])
  {
    if s == [] then [] else [LowerChar(s[0])] + ToLower(s[1..])
  }

  lemma {:induction false} ToLowerIdempotent(s: string)
    ensures ToLower(ToLower(s)) == ToLower(s)
  {
    if s != [] {
      ToLowerIdempotent(s[1..]);
    }
  }

  // ---------------------------------------------------------------- trim

  function TrimStart(s: string): (r: string)
    ensures |r| <= |s| && r == s[|s| - |r|..]
    ensures r != [] ==> !IsSpace(r[0])
    ensures forall i :: 0 <= i < |s| - |r| ==> IsSpace(s[i])
  {
    if s != [] && IsSpace(s[0]) then TrimStart(s[1..]) else s
  }

  function TrimEnd(s: string): (r: string)
    ensures |r| <= |s| && r == s[..|r|]
    ensures r != [] ==> !IsSpace(r[|r| - 1])
    ensures forall i :: |r| <= i < |s| ==> IsSpace(s[i])
  {
    if s != [] && IsSpace(s[|s| - 1]) then TrimEnd(s[..|s| - 1]) else s
  }

  /** `s.trim()`. */
  function Trim(s: string): string {
    TrimEnd(TrimStart(s))
  }

  predicate IsBlank(s: string) {
    forall i :: 0 <= i < |s| ==> IsSpace(s[i])
  }

  /** `s.trim() === ''` exactly when every character of `s` is white space. */
  lemma TrimEmptyIffBlank(s: string)
    ensures Trim(s) == [] <==> IsBlank(s)
  {
  }

  // ---------------------------------------------------------------- includes

  /** `s.includes(t)`: `t` occurs in `s` at some position. */
  predicate Contains(s: string, t: string) {
    exists i | 0 <= i <= |s| - |t| :: OccursAt(s, t, i)
  }

  predicate OccursAt(s: string, t: string, i: int) {
    0 <= i <= |s| - |t| && s[i..i + |t|] == t
  }

  /** One step of the scan: `t` occurs in `s` at the front or further on. */
  lemma ContainsStep(s: string, t: string)
    requires |s| >= |t| && s[..|t|] != t
    ensures Contains(s, t) <==> Contains(s[1..], t)
  {
    assert |s[1..]| == |s| - 1;
    if Contains(s[1..], t) {
      var i :| 0 <= i <= |s[1..]| - |t| && OccursAt(s[1..], t, i);
      assert s[i + 1..i + 1 + |t|] == t;
      assert OccursAt(s, t, i + 1);
    }
    if Contains(s, t) {
      var i :| 0 <= i <= |s| - |t| && OccursAt(s, t, i);
      assert i != 0;
      assert s[1..][i - 1..i - 1 + |t|] == t;
      assert OccursAt(s[1..], t, i - 1);
    }
  }

  /** A left-to-right scan deciding `Contains`, as `includes` runs. */
  function ContainsScan(s: string, t: string): (r: bool)
    ensures r <==> Contains(s, t)
  {
    if |s| < |t| then false
    else if s[..|t|] == t then (assert OccursAt(s, t, 0); true)
    else (ContainsStep(s, t); ContainsScan(s[1..], t))
  }

  /** Every character of a contained text occurs in the containing text. */
  lemma ContainsChars(s: string, t: string)
    requires Contains(s, t)
    ensures forall k :: 0 <= k < |t| ==> t[k] in s
  {
    var i :| 0 <= i <= |s| - |t| && OccursAt(s, t, i);
    forall k | 0 <= k < |t| ensures t[k] in s {
      assert t[k] == s[i..i + |t|][k] == s[i + k];
    }
  }

  /** A text lacking one of the characters of `t` does not contain `t`. */
  lemma NotContainsChar(s: string, t: string, c: char)
    requires c in t && c !in s
    ensures !Contains(s, t)
  {
    if Contains(s, t) {
      ContainsChars(s, t);
    }
  }

  /** Text of the same length as `t` contains it only by being equal to it. */
  lemma NotContainsSameLength(s: string, t: string)
    requires |s| == |t| && s != t
    ensures !Contains(s, t)
  {
  }

  /** An occurrence of `t` in `u + [c] + v` lies within `u`, lies within `v`,
      or covers `c`. */
  lemma ContainsCut(u: string, c: char, v: string, t: string)
    requires Contains(u + [c] + v, t)
    ensures Contains(u, t) || Contains(v, t) || c in t
  {
    var s := u + [c] + v;
    var i :| 0 <= i <= |s| - |t| && OccursAt(s, t, i);
    if i + |t| <= |u| {
      assert u[i..i + |t|] == s[i..i + |t|];
      assert OccursAt(u, t, i);
    } else if i > |u| {
      var j := i - |u| - 1;
      forall m | 0 <= m < |t| ensures v[j + m] == t[m] {
        assert v[j + m] == s[i + m];
        assert t[m] == s[i..i + |t|][m];
      }
      assert v[j..j + |t|] == t;
      assert OccursAt(v, t, j);
    } else {
      assert t[|u| - i] == s[i..i + |t|][|u| - i] == c;
    }
  }

  /** Hence, when `c` is not in `t`, `u + [c] + v` contains `t` only if one
      of the two sides does. */
  lemma NotContainsCut(u: string, c: char, v: string, t: string)
    requires c !in t && !Contains(u, t) && !Contains(v, t)
    ensures !Contains(u + [c] + v, t)
  {
    if Contains(u + [c] + v, t) {
      ContainsCut(u, c, v, t);
    }
  }

  /** Lower-casing the text keeps every lower-case word it contains. */
  lemma ContainsLower(s: string, t: string)
    requires Contains(s, t)
    requires ToLower(t) == t
    ensures Contains(ToLower(s), t)
  {
    var i :| 0 <= i <= |s| - |t| && OccursAt(s, t, i);
    var ls := ToLower(s);
    forall k | 0 <= k < |t| ensures ls[i + k] == t[k] {
      assert ls[i + k] == LowerChar(s[i + k]);
      assert s[i + k] == s[i..i + |t|][k];
      assert ToLower(t)[k] == LowerChar(t[k]);
    }
    assert ls[i..i + |t|] == t;
    assert OccursAt(ls, t, i);
  }

  // ---------------------------------------------------------------- split

  /** The part of `s` before the first `sep`, and whether `sep` occurs. */
  function TakeUntil(s: string, sep: char): (r: string)
    ensures |r| <= |s| && r == s[..|r|]
    ensures sep !in r
    ensures |r| < |s| ==> s[|r|] == sep
  {
    if s == [] || s[0] == sep then [] else [s[0]] + TakeUntil(s[1..], sep)
  }

  /** `s.split(sep)` for a one-character separator. */
  function Split(s: string, sep: char): (parts: seq<string>)
    ensures |parts| >= 1
    ensures forall k :: 0 <= k < |parts| ==> sep !in parts[k]
    ensures parts[0] == TakeUntil(s, sep)
    decreases |s|
  {
    var head := TakeUntil(s, sep);
    if |head| == |s| then [s] else [head] + Split(s[|head| + 1..], sep)
  }

  function Join(parts: seq<string>, sep: char): string
    requires |parts| >= 1
  {
    if |parts| == 1 then parts[0] else parts[0] + [sep] + Join(parts[1..], sep)
  }

  /** Splitting loses nothing: joining the parts back gives the string. */
  lemma {:induction false} JoinSplit(s: string, sep: char)
    ensures Join(Split(s, sep), sep) == s
    decreases |s|
  {
    var head := TakeUntil(s, sep);
    if |head| < |s| {
      var rest := s[|head| + 1..];
      var parts := Split(rest, sep);
      assert Split(s, sep) == [head] + parts;
      assert ([head] + parts)[1..] == parts;
      calc {
        Join(Split(s, sep), sep);
        head + [sep] + Join(parts, sep);
        { JoinSplit(rest, sep); }
        head + [sep] + rest;
        s;
      }
    }
  }

  // ---------------------------------------------------------------- numbers

  function DigitsValue(s: string): (n: nat)
    requires forall i :: 0 <= i < |s| ==> IsDigit(s[i])
  {
    if s == [] then 0
    else
      assert IsDigit(s[|s| - 1]);
      DigitsValue(s[..|s| - 1]) * 10 + (s[|s| - 1] as int - '0' as int)
  }

  predicate AllDigits(s: string) {
    |s| > 0 && forall i :: 0 <= i < |s| ==> IsDigit(s[i])
  }

  /** An integer literal: an optional `-` and one or more decimal digits. */
  function ParseDecimal(s: string): (r: Option<int>)
    ensures r.Some? <==> AllDigits(s) || (|s| > 1 && s[0] == '-' && AllDigits(s[1..]))
    ensures AllDigits(s) ==> r.Some? && r.value >= 0
  {
    if AllDigits(s) then Some(DigitsValue(s))
    else if |s| > 1 && s[0] == '-' && AllDigits(s[1..]) then Some(-(DigitsValue(s[1..]) as int))
    else None
  }

  /** `Number(s)`: blank text is 0, an integer literal (surrounding white space
      allowed) is its value, anything else is NaN. */
  function ToNumber(s: string): (r: Number)
    ensures IsBlank(s) ==> r == Finite(0)
    ensures AllDigits(s) ==> r.Finite? && r.n >= 0
    ensures !IsBlank(s) ==> (r.Finite? <==> ParseDecimal(Trim(s)).Some?)
  {
    TrimEmptyIffBlank(s);
    var t := Trim(s);
    if t == [] then Finite(0)
    else match ParseDecimal(t)
      case Some(n) => Finite(n)
      case None => NaN
  }

  lemma DigitsTrimmed(s: string)
    requires AllDigits(s)
    ensures Trim(s) == s
  {
  }

  lemma DigitsParse(s: string)
    requires AllDigits(s)
    ensures ParseDecimal(s) == Some(DigitsValue(s) as int)
  {
  }

  /** `Number` reads a string of digits as its decimal value. */
  lemma DigitsNumber(s: string)
    requires AllDigits(s)
    ensures ToNumber(s) == Finite(DigitsValue(s))
  {
    DigitsTrimmed(s);
    DigitsParse(s);
  }

  /** `String(n)` for a natural number, the inverse of `DigitsValue`. */
  function NatToString(n: nat): (r: string)
    ensures AllDigits(r)
    ensures DigitsValue(r) == n
  {
    var d := [(n % 10 + '0' as int) as char];
    if n < 10 then d
    else
      var r := NatToString(n / 10) + d;
      assert r[..|r| - 1] == NatToString(n / 10);
      r
  }
}
