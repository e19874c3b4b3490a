/**
 * The few JavaScript string operations the dashboard relies on, stated on
 * `seq<char>`: ASCII lower-casing, `trim`, decimal rendering of a number,
 * prefix tests and `includes`.
 */
module Text {

  predicate IsUpper(c: char) { 'A' <= c <= 'Z' }

  predicate IsDigit(c: char) { '0' <= c <= '9' }

  /**
   * White space removed by `String.prototype.trim`: the WhiteSpace and
   * LineTerminator characters of ECMAScript (tab, vertical tab, form feed,
   * space, no-break space, the byte-order mark, the other space separators,
   * line feed, carriage return, line and paragraph separators).
   */
  predicate IsSpace(c: char) {
    c == '\t' || c as int == 0x0B || c as int == 0x0C || c == ' ' || c as int == 0xA0 || c as int == 0xFEFF ||
    c as int == 0x1680 || 0x2000 <= c as int <= 0x200A || c as int == 0x202F || c as int == 0x205F || c as int == 0x3000 ||
    c == '\n' || c == '\r' || c as int == 0x2028 || c as int == 0x2029
  }

  function LowerChar(c: char): (d: char)
    ensures IsUpper(c) ==> d as int == c as int + 32
    ensures !IsUpper(c) ==> d == c
  {
    if IsUpper(c) then (c as int + 32) as char else c
  }

  /** `s.toLowerCase()` restricted to ASCII letters. */
  function ToLower(s: string): (r: string)
    ensures |r| == |s|
    ensures forall i :: 0 <= i < |s| ==> r[i] == LowerChar(s[i])
  {
    seq(|s|, i requires 0 <= i < |s| => LowerChar(s[i]))
  }

  /** Lower-casing maps the empty string, and only it, to the empty string. */
  lemma ToLowerEmpty(s: string)
    ensures ToLower(s) == "" <==> s == ""
  {
  }

  /** `s.trimStart()`. */
  function TrimStart(s: string): (r: string)
    ensures |r| <= |s| && r == s[|s| - |r|..]
    ensures r != [] ==> !IsSpace(r[0])
    ensures forall i :: 0 <= i < |s| - |r| ==> IsSpace(s[i])
  {
    if s != [] && IsSpace(s[0]) then TrimStart(s[1..]) else s
  }

  /** `s.trimEnd()`. */
  function TrimEnd(s: string): (r: string)
    ensures |r| <= |s| && r == s[..|r|]
    ensures r != [] ==> !IsSpace(r[|r| - 1])
    ensures forall i :: |r| <= i < |s| ==> IsSpace(s[i])
  {
    if s != [] && IsSpace(s[|s| - 1]) then TrimEnd(s[..|s| - 1]) else s
  }

  /**
   * `s.trim()`: the infix of `s` left after cutting white space only, as much
   * of it as there is at both ends.
   */
  function Trim(s: string): (r: string)
    ensures r != [] ==> !IsSpace(r[0]) && !IsSpace(r[|r| - 1])
    ensures exists i :: OccursAt(s, r, i) &&
                        (forall k :: 0 <= k < i ==> IsSpace(s[k])) &&
                        (forall k :: i + |r| <= k < |s| ==> IsSpace(s[k]))
  {
    var t := TrimStart(s);
    TrimmedInfix(s, t, TrimEnd(t));
    TrimEnd(t)
  }

  /** Cutting white space at the front, then at the back, leaves an infix with only white space around it. */
  lemma TrimmedInfix(s: string, t: string, r: string)
    requires |t| <= |s| && t == s[|s| - |t|..] && forall k :: 0 <= k < |s| - |t| ==> IsSpace(s[k])
    requires t != [] ==> !IsSpace(t[0])
    requires |r| <= |t| && r == t[..|r|] && forall k :: |r| <= k < |t| ==> IsSpace(t[k])
    requires r != [] ==> !IsSpace(r[|r| - 1])
    ensures r != [] ==> !IsSpace(r[0]) && !IsSpace(r[|r| - 1])
    ensures exists i :: OccursAt(s, r, i) &&
                        (forall k :: 0 <= k < i ==> IsSpace(s[k])) &&
                        (forall k :: i + |r| <= k < |s| ==> IsSpace(s[k]))
  {
    if r != [] {
      assert r[0] == t[0];
    }
    var i := |s| - |t|;
    assert OccursAt(s, r, i);
    forall k | i + |r| <= k < |s| ensures IsSpace(s[k]) {
      assert s[k] == t[k - i];
    }
  }

  function DigitChar(d: nat): (c: char)
    requires d < 10
    ensures IsDigit(c)
  {
    ('0' as int + d) as char
  }

  /** The number a string of decimal digits denotes, most significant digit first. */
  function DigitsValue(s: string): nat
    requires forall i :: 0 <= i < |s| ==> IsDigit(s[i])
  {
    if s == [] then 0
    else
      assert IsDigit(s[|s| - 1]);
      DigitsValue(s[..|s| - 1]) * 10 + (s[|s| - 1] as int - '0' as int)
  }

  /**
   * The decimal rendering of `n`, as a template literal `${n}` produces it:
   * digits that denote `n`, without a leading zero unless `n` is 0.
   */
  function NatToString(n: nat): (r: string)
    ensures r != []
    ensures forall i :: 0 <= i < |r| ==> IsDigit(r[i])
    ensures DigitsValue(r) == n
    ensures r[0] == '0' ==> r == "0"
  {
    if n < 10 then [DigitChar(n)]
    else
      var r := NatToString(n / 10) + [DigitChar(n % 10)];
      assert r[..|r| - 1] == NatToString(n / 10);
      r
  }

  /** `s.startsWith(p)`. */
  predicate StartsWith(s: string, p: string) {
    |p| <= |s| && s[..|p|] == p
  }

  /** `p` occurs in `s` at index `i`. */
  predicate OccursAt(s: string, p: string, i: int) {
    0 <= i && i + |p| <= |s| && s[i..i + |p|] == p
  }

  /** `s.includes(p)`, computed by trying every start index from `i` on. */
  function IncludesFrom(s: string, p: string, i: nat): (b: bool)
    requires i <= |s|
    ensures b <==> exists k :: i <= k && OccursAt(s, p, k)
    decreases |s| - i
  {
    if OccursAt(s, p, i) then true
    else if i + |p| >= |s| then
      assert forall k :: i < k ==> !OccursAt(s, p, k);
      false
    else IncludesFrom(s, p, i + 1)
  }

  /** `s.includes(p)`: some index of `s` starts an occurrence of `p`. */
  function Includes(s: string, p: string): (b: bool)
    ensures b <==> exists k :: OccursAt(s, p, k)
  {
    IncludesFrom(s, p, 0)
  }
}
