/**
 * The few JavaScript string operations the core relies on: truthiness of an
 * optional string, `||` with a fallback, ASCII `toLowerCase`/`toUpperCase`
 * and `includes`.
 */
module JsText {
  import opened Wrappers

  /** A field of a JSON body or a document that may be absent (`undefined`). */
  type Field = Option<string>

  /** JavaScript truthiness of an optional string: present and not empty. */
  predicate Truthy(f: Field) {
    f.Some? && f.value != ""
  }

  /** `f || fallback` for an optional string. */
  function OrElse(f: Field, fallback: string): string {
    if Truthy(f) then f.value else fallback
  }

  /** `toLowerCase` on one character, ASCII letters only. */
  function LowerChar(c: char): char {
    if 'A' <= c <= 'Z' then (c as int + 32) as char else c
  }

  /** `toUpperCase` on one character, ASCII letters only. */
  function UpperChar(c: char): char {
    if 'a' <= c <= 'z' then (c as int - 32) as char else c
  }

  /** `s.toLowerCase()`, ASCII letters only. */
  function ToLowerCase(s: string): (r: string)
    ensures |r| == |s|
    ensures forall i :: 0 <= i < |s| ==> r[i] == LowerChar(s[i])
  {
    seq(|s|, i requires 0 <= i < |s| => LowerChar(s[i]))
  }

  /** Lower-casing twice is lower-casing once. */
  lemma ToLowerCaseIdempotent(s: string)
    ensures ToLowerCase(ToLowerCase(s)) == ToLowerCase(s)
  {
  }

  /** Upper-casing a character keeps it equal to the original up to case, and leaves no lower-case ASCII letter. */
  lemma UpperCharSameLetter(c: char)
    ensures LowerChar(UpperChar(c)) == LowerChar(c)
    ensures !('a' <= UpperChar(c) <= 'z')
  {
  }

  /** `t` occurs in `s` starting at index `i`. */
  predicate OccursAt(s: string, t: string, i: int) {
    0 <= i && i + |t| <= |s| && s[i..i + |t|] == t
  }

  /** `s.includes(t)`: scans `s` from the left for an occurrence of `t`. */
  function Includes(s: string, t: string): (r: bool)
    ensures r ==> |t| <= |s|
    ensures t == [] ==> r
    decreases |s|
  {
    if |t| > |s| then false
    else if s[..|t|] == t then true
    else Includes(s[1..], t)
  }

  /** Past the first character, occurrences in `s` are exactly the occurrences in its tail, shifted by one. */
  lemma OccursShift(s: string, t: string)
    requires |s| >= 1
    ensures forall i :: 1 <= i ==> (OccursAt(s, t, i) <==> OccursAt(s[1..], t, i - 1))
  {
    forall i | 1 <= i
      ensures OccursAt(s, t, i) <==> OccursAt(s[1..], t, i - 1)
    {
      if i + |t| <= |s| {
        var here, there := s[i..i + |t|], s[1..][i - 1..i - 1 + |t|];
        forall k | 0 <= k < |t|
          ensures here[k] == there[k]
        {
        }
        assert here == there;
      }
    }
  }

  /** `includes` answers true exactly when `t` occurs somewhere in `s`. */
  lemma {:induction false} IncludesIffOccurs(s: string, t: string)
    ensures Includes(s, t) <==> exists i :: OccursAt(s, t, i)
    decreases |s|
  {
    if |t| > |s| {
      assert forall i :: !OccursAt(s, t, i);
    } else if s[..|t|] == t {
      assert OccursAt(s, t, 0);
    } else {
      IncludesIffOccurs(s[1..], t);
      OccursShift(s, t);
      if Includes(s[1..], t) {
        var i :| OccursAt(s[1..], t, i);
        assert OccursAt(s, t, i + 1);
      } else {
        assert !OccursAt(s, t, 0);
        assert forall i :: !OccursAt(s, t, i);
      }
    }
  }
}
