/** The few JavaScript value semantics that the application's logic depends on:
    optional values, truthiness, `String.prototype.includes` and number-to-string. */
module Js {

  /** A value that may be `undefined` or `null` (None) or present (Some). */
  datatype Option<+T> = None | Some(value: T) {
    /** `x ?? d` for a present-or-absent value. */
    function GetOr(default: T): T {
      match this
      case Some(v) => v
      case None => default
    }
  }

  /** A JavaScript `number` as the application uses it: an integer or NaN. */
  datatype Number = Finite(v: int) | NaN

  /** A string field that JavaScript treats as true: present and not the empty string. */
  predicate Truthy(s: Option<string>) {
    s.Some? && s.value != ""
  }

  /** An optional number that JavaScript treats as true: present, not NaN and not 0. */
  predicate TruthyNumber(n: Option<Number>) {
    n.Some? && n.value.Finite? && n.value.v != 0
  }

  /** `s || fallback` on a string that may be absent. */
  function OrString(s: Option<string>, fallback: string): string {
    if Truthy(s) then s.value else fallback
  }

  /** A present, non-empty string wins over the fallback; the result is truthy exactly
      when the string or the fallback is. */
  lemma OrStringChoice(s: Option<string>, fallback: string)
    ensures Truthy(Some(OrString(s, fallback))) <==> Truthy(s) || fallback != ""
    ensures forall x :: x != "" ==> OrString(Some(x), fallback) == x
    ensures OrString(None, fallback) == fallback && OrString(Some(""), fallback) == fallback
  {
  }

  /** `n || fallback` on a number that may be absent (0 is falsy). */
  function OrNumber(n: Option<int>, fallback: int): int {
    if n.Some? && n.value != 0 then n.value else fallback
  }

  /** A present, non-zero number wins over the fallback; the result is non-zero exactly
      when the number or the fallback is. */
  lemma OrNumberChoice(n: Option<int>, fallback: int)
    ensures OrNumber(n, fallback) != 0 <==> TruthyNumber(if n.Some? then Some(Finite(n.value)) else None) || fallback != 0
    ensures forall x :: x != 0 ==> OrNumber(Some(x), fallback) == x
    ensures OrNumber(None, fallback) == fallback && OrNumber(Some(0), fallback) == fallback
  {
  }

  /** `Math.min(a, b)`. */
  function Min(a: int, b: int): int {
    if a <= b then a else b
  }

  /** `hay.includes(needle)`: the search starts at position 0 and moves right. */
  predicate Includes(hay: string, needle: string)
    decreases |hay|
  {
    needle <= hay || (hay != [] && Includes(hay[1..], needle))
  }

  /** `needle` occurs in `hay` starting at position `i`. */
  predicate OccursAt(hay: string, needle: string, i: int) {
    0 <= i <= |hay| - |needle| && hay[i..i + |needle|] == needle
  }

  /** `includes` holds exactly when `needle` occurs at some position of `hay`. */
  lemma {:induction false} IncludesIff(hay: string, needle: string)
    ensures Includes(hay, needle) <==> exists i :: OccursAt(hay, needle, i)
    decreases |hay|
  {
    if needle <= hay {
      assert OccursAt(hay, needle, 0);
    } else if hay == [] {
    } else {
      IncludesIff(hay[1..], needle);
      if exists i :: OccursAt(hay, needle, i) {
        var i :| OccursAt(hay, needle, i);
        assert i != 0;
        assert OccursAt(hay[1..], needle, i - 1);
      }
      if Includes(hay[1..], needle) {
        var j :| OccursAt(hay[1..], needle, j);
        assert OccursAt(hay, needle, j + 1);
      }
    }
  }

  /** Whatever stands before and after it, a string includes itself. */
  lemma {:induction false} IncludesInfix(before: string, needle: string, after: string)
    ensures Includes(before + needle + after, needle)
    decreases |before|
  {
    if before == [] {
      assert before + needle + after == needle + after;
    } else {
      assert (before + needle + after)[1..] == before[1..] + needle + after;
      IncludesInfix(before[1..], needle, after);
    }
  }

  /** The decimal digit for 0..9. */
  function DecimalDigit(d: int): (c: char)
    requires 0 <= d < 10
    ensures '0' <= c <= '9'
  {
    (48 + d) as char
  }

  /** `String(n)` for a non-negative integer: its decimal digits, most significant first. */
  function Decimal(n: nat): (r: string)
    ensures |r| >= 1
    ensures forall c :: c in r ==> '0' <= c <= '9'
  {
    if n < 10 then [DecimalDigit(n)] else Decimal(n / 10) + [DecimalDigit(n % 10)]
  }

  /** `String(n)` (or a template literal) for any integer. */
  function NumberString(n: int): (r: string)
    ensures |r| >= 1
    ensures n >= 0 ==> r == Decimal(n)
    ensures n < 0 ==> r[0] == '-'
  {
    if n < 0 then "-" + Decimal(-n) else Decimal(n)
  }

  /** The value of a string of decimal digits, read most significant first. */
  function DigitsValue(s: string): int
    decreases |s|
  {
    if s == [] then 0 else 10 * DigitsValue(s[..|s| - 1]) + (s[|s| - 1] as int - 48)
  }

  /** `Number(s)` on what `String(n)` writes: an optional `-` followed by digits. */
  function NumberValue(s: string): int {
    if s != [] && s[0] == '-' then -DigitsValue(s[1..]) else DigitsValue(s)
  }

  /** Reading the decimal digits of `n` back gives `n`. */
  lemma {:induction false} DecimalValue(n: nat)
    ensures DigitsValue(Decimal(n)) == n
    decreases n
  {
    if n >= 10 {
      DecimalValue(n / 10);
      var s := Decimal(n / 10) + [DecimalDigit(n % 10)];
      assert s[..|s| - 1] == Decimal(n / 10);
      assert s[|s| - 1] == DecimalDigit(n % 10);
    }
  }

  /** `Number(String(n)) == n`: the rendering of an integer determines it. */
  lemma NumberStringValue(n: int)
    ensures NumberValue(NumberString(n)) == n
  {
    if n < 0 {
      DecimalValue(-n);
      assert NumberString(n)[1..] == Decimal(-n);
    } else {
      DecimalValue(n);
      assert Decimal(n)[0] in Decimal(n);
    }
  }

  /** Different integers are written differently. */
  lemma NumberStringInjective(a: int, b: int)
    ensures NumberString(a) == NumberString(b) ==> a == b
  {
    NumberStringValue(a);
    NumberStringValue(b);
  }
}
