/**
 * The keyboard shortcut of the dashboard (script.js): a key between
 * `'1'` and `'8'` names the id of the device to toggle. The guard is
 * JavaScript's string comparison and the id is `parseInt` of the key.
 */
module Keyboard {
  import opened Wrappers

  /** JavaScript's `a <= b` on strings: lexicographic order of the characters. */
  predicate LexLeq(a: string, b: string)
    decreases |a|
  {
    a == [] || (b != [] && (a[0] < b[0] || (a[0] == b[0] && LexLeq(a[1..], b[1..]))))
  }

  predicate IsDigit(c: char)
  {
    '0' <= c <= '9'
  }

  /**
   * The guard `key >= '1' && key <= '8'`: it holds exactly for the keys that
   * start with `'1'` to `'8'`, except the longer keys that start with `'8'`.
   */
  predicate InRange(key: string)
    ensures InRange(key) <==> key != [] && '1' <= key[0] <= '8' && (key[0] == '8' ==> |key| == 1)
  {
    InRangeShape(key);
    LexLeq("1", key) && LexLeq(key, "8")
  }

  /** String comparison against the one-character strings `"1"` and `"8"`. */
  lemma InRangeShape(key: string)
    ensures LexLeq("1", key) && LexLeq(key, "8") <==>
      key != [] && '1' <= key[0] <= '8' && (key[0] == '8' ==> |key| == 1)
  {
    if key != [] {
      assert "1"[1..] == [] && "8"[1..] == [];
      assert LexLeq("1"[1..], key[1..]);
      assert LexLeq(key[1..], "8"[1..]) <==> key[1..] == [];
    }
  }

  /** The longest prefix of decimal digits. */
  function LeadingDigits(s: string): (r: string)
    ensures |r| <= |s| && r == s[..|r|]
    ensures forall i :: 0 <= i < |r| ==> IsDigit(r[i])
    ensures |r| < |s| ==> !IsDigit(s[|r|])
  {
    if s == [] || !IsDigit(s[0]) then [] else [s[0]] + LeadingDigits(s[1..])
  }

  /** The number a string of decimal digits denotes. */
  function DecimalValue(digits: string): nat
    requires forall i :: 0 <= i < |digits| ==> IsDigit(digits[i])
  {
    if digits == [] then 0
    else
      assert IsDigit(digits[|digits| - 1]);
      DecimalValue(digits[..|digits| - 1]) * 10 + (digits[|digits| - 1] as int - '0' as int)
  }

  /** A numeral without a leading zero is at least 1, and at least 10 when it has two digits or more. */
  lemma {:induction false} DecimalValueLower(digits: string)
    requires digits != [] && digits[0] != '0'
    requires forall i :: 0 <= i < |digits| ==> IsDigit(digits[i])
    ensures DecimalValue(digits) >= if |digits| == 1 then 1 else 10
  {
    if |digits| > 1 {
      DecimalValueLower(digits[..|digits| - 1]);
    }
  }

  /** `parseInt(s)` for a string that starts with a digit: the value of its leading digits. */
  function ParseLeadingInt(s: string): (n: nat)
    requires s != [] && IsDigit(s[0])
    ensures s[0] != '0' ==> n >= 1
    ensures (|s| == 1 || !IsDigit(s[1])) ==> n == s[0] as int - '0' as int
    ensures s[0] != '0' && |s| > 1 && IsDigit(s[1]) ==> n >= 10
  {
    var d := LeadingDigits(s);
    assert d[0] == s[0];
    assert |d| == 1 ==> d[..0] == [] && DecimalValue(d) == DecimalValue(d[..0]) * 10 + (d[0] as int - '0' as int);
    if s[0] != '0' then
      DecimalValueLower(d);
      DecimalValue(d)
    else DecimalValue(d)
  }

  /** The id the keydown handler looks up, when the key passes the guard. */
  function KeyTarget(key: string): (r: Option<int>)
    ensures r.Some? <==> InRange(key)
    ensures r.Some? ==> r.value >= 1
  {
    if InRange(key) then
      Some(ParseLeadingInt(key))
    else None
  }

  /**
   * A key names one of the ids 1 to 8 exactly when it is a digit from `'1'`
   * to `'8'`, alone or followed by a non-digit (and not after an `'8'`);
   * the id is then that digit.
   */
  lemma KeyTargetSmallId(key: string)
    ensures (KeyTarget(key).Some? && KeyTarget(key).value <= 8) <==>
      (key != [] && '1' <= key[0] <= '8' && (|key| == 1 || (key[0] != '8' && !IsDigit(key[1]))))
    ensures KeyTarget(key).Some? && KeyTarget(key).value <= 8 ==>
      KeyTarget(key).value == key[0] as int - '0' as int
  {
  }

  /** The single-character keys `'1'` to `'8'` name the ids 1 to 8. */
  lemma DigitKeys(c: char)
    ensures KeyTarget([c]) == if '1' <= c <= '8' then Some(c as int - '0' as int) else None
  {
    KeyTargetSmallId([c]);
  }
}
