/**
 * Coercion of user-entered values: the `Math.max(lo, Math.min(hi, …))`
 * clamps, the `value || default` fallbacks for empty fields, and
 * JavaScript's `String.prototype.trim`.
 *
 * A form field is modelled as `Option<int>`: `None` is the empty field
 * (which `||` replaces by the default), `Some(v)` a field holding the
 * integer `v`.
 */
module Inputs {
  import opened Wrappers

  /** `Math.max(lo, Math.min(hi, x))`. */
  function Clamp(lo: int, hi: int, x: int): (r: int)
    requires lo <= hi
    ensures lo <= r <= hi
    ensures lo <= x <= hi ==> r == x
    ensures x < lo ==> r == lo
    ensures hi < x ==> r == hi
  {
    if x < lo then lo else if hi < x then hi else x
  }

  /** The value `Number(field || d)` yields for a field. */
  function OrDefault(field: Option<int>, d: int): (r: int)
    ensures field.None? ==> r == d
    ensures field.Some? ==> r == field.value
  {
    match field
    case None => d
    case Some(v) => v
  }

  /** Focus minutes read by "apply settings": default 25, clamped to [1,120]. */
  function FocusMinutes(field: Option<int>): (r: int)
    ensures 1 <= r <= 120
    ensures field.None? ==> r == 25
    ensures field.Some? && 1 <= field.value <= 120 ==> r == field.value
    ensures field.Some? && field.value < 1 ==> r == 1
    ensures field.Some? && 120 < field.value ==> r == 120
  {
    Clamp(1, 120, OrDefault(field, 25))
  }

  /** Break minutes read by "apply settings": default 5, clamped to [1,60]. */
  function BreakMinutes(field: Option<int>): (r: int)
    ensures 1 <= r <= 60
    ensures field.None? ==> r == 5
    ensures field.Some? && 1 <= field.value <= 60 ==> r == field.value
    ensures field.Some? && field.value < 1 ==> r == 1
    ensures field.Some? && 60 < field.value ==> r == 60
  {
    Clamp(1, 60, OrDefault(field, 5))
  }

  /** Minutes of a new task: default 25, clamped to [1,240]; "0" becomes 1. */
  function TaskMinutes(field: Option<int>): (r: int)
    ensures 1 <= r <= 240
    ensures field.None? ==> r == 25
    ensures field.Some? && 1 <= field.value <= 240 ==> r == field.value
    ensures field.Some? && field.value < 1 ==> r == 1
    ensures field.Some? && 240 < field.value ==> r == 240
  {
    Clamp(1, 240, OrDefault(field, 25))
  }

  /**
   * Focus minutes taken from a task: `Number(minutes) || 25` turns 0 into the
   * default 25 (unlike the form fields, where "0" is kept and clamped to 1),
   * then the value is clamped to [1,120].
   */
  function MinutesFromTask(minutes: int): (r: int)
    ensures 1 <= r <= 120
    ensures minutes == 0 ==> r == 25
    ensures 1 <= minutes <= 120 ==> r == minutes
    ensures minutes < 0 ==> r == 1
    ensures 120 < minutes ==> r == 120
  {
    Clamp(1, 120, if minutes == 0 then 25 else minutes)
  }

  /** ECMAScript WhiteSpace and LineTerminator code points, the ones `trim` removes. */
  predicate IsSpace(c: char)
  {
    c in {'\t', '\n', '\U{000B}', '\U{000C}', '\r', ' ', '\U{00A0}', '\U{1680}',
          '\U{2000}', '\U{2001}', '\U{2002}', '\U{2003}', '\U{2004}', '\U{2005}',
          '\U{2006}', '\U{2007}', '\U{2008}', '\U{2009}', '\U{200A}', '\U{2028}',
          '\U{2029}', '\U{202F}', '\U{205F}', '\U{3000}', '\U{FEFF}'}
  }

  predicate AllSpace(s: string)
  {
    forall i :: 0 <= i < |s| ==> IsSpace(s[i])
  }

  /** Drops leading white space; the result is a suffix of `s`. */
  function TrimStart(s: string): (r: string)
    ensures |r| <= |s| && r == s[|s| - |r|..]
    ensures AllSpace(s[..|s| - |r|])
    ensures r == [] || !IsSpace(r[0])
  {
    if s == [] || !IsSpace(s[0]) then s
    else
      var r := TrimStart(s[1..]);
      assert s[1..][..|s| - 1 - |r|] == s[1..|s| - |r|];
      r
  }

  /** Drops trailing white space; the result is a prefix of `s`. */
  function TrimEnd(s: string): (r: string)
    ensures |r| <= |s| && r == s[..|r|]
    ensures AllSpace(s[|r|..])
    ensures r == [] || !IsSpace(r[|r| - 1])
  {
    if s == [] || !IsSpace(s[|s| - 1]) then s
    else
      var r := TrimEnd(s[..|s| - 1]);
      assert s[..|s| - 1][|r|..] == s[|r|..|s| - 1];
      r
  }

  /** `String.prototype.trim`. */
  function Trim(s: string): (r: string)
    ensures r == [] || (!IsSpace(r[0]) && !IsSpace(r[|r| - 1]))
    ensures exists i :: 0 <= i && i + |r| <= |s| && r == s[i..i + |r|] && AllSpace(s[..i]) && AllSpace(s[i + |r|..])
  {
    var t := TrimStart(s);
    var r := TrimEnd(t);
    TrimmedSlice(s, t, r);
    r
  }

  /** A prefix of a suffix is a slice, framed by the two white-space runs dropped. */
  lemma TrimmedSlice(s: string, t: string, r: string)
    requires |t| <= |s| && t == s[|s| - |t|..] && AllSpace(s[..|s| - |t|])
    requires |r| <= |t| && r == t[..|r|] && AllSpace(t[|r|..])
    ensures exists i :: 0 <= i && i + |r| <= |s| && r == s[i..i + |r|] && AllSpace(s[..i]) && AllSpace(s[i + |r|..])
  {
    var i := |s| - |t|;
    assert r == s[i..i + |r|];
    assert s[i + |r|..] == t[|r|..];
  }

  /** `trim` yields the empty string exactly for the all-white-space strings. */
  lemma TrimEmptyIff(s: string)
    ensures Trim(s) == [] <==> AllSpace(s)
  {
    var t := TrimStart(s);
    if Trim(s) == [] {
      assert t == [];
      assert s[..|s|] == s;
    } else {
      var r := Trim(s);
      var k := |s| - |t|;
      assert r[0] == t[0] == s[k];
    }
  }

  /** Removing white space at both ends leaves nothing more to remove. */
  lemma TrimIdempotent(s: string)
    ensures Trim(Trim(s)) == Trim(s)
  {
    var r := Trim(s);
    if r != [] {
      assert TrimStart(r) == r;
      assert TrimEnd(r) == r;
    }
  }
}
