/**
 * The C string operations the distribution-tag inspection applies to one
 * line of a spec file: `strprefix`, `strstr` and the line-ending trim
 * `buf[strcspn(buf, "\r\n")] = 0`.  A line is a `string`; a C string ends
 * at its first NUL, so the trim also stops there.
 */
module SpecText {

  /** `strprefix(s, p)`: s starts with p. */
  predicate HasPrefix(s: string, p: string) {
    |p| <= |s| && s[..|p|] == p
  }

  /** `strstr(s, p) != NULL`, as the left-to-right search strstr performs. */
  predicate Contains(s: string, p: string)
    decreases |s|
  {
    HasPrefix(s, p) || (|s| > 0 && Contains(s[1..], p))
  }

  /** p occurs in s starting at index i. */
  ghost predicate OccursAt(s: string, p: string, i: int) {
    0 <= i && i + |p| <= |s| && s[i..i + |p|] == p
  }

  /** The search finds p exactly when p occurs somewhere in s. */
  lemma {:induction false} ContainsIff(s: string, p: string)
    ensures Contains(s, p) <==> exists i :: OccursAt(s, p, i)
    decreases |s|
  {
    if HasPrefix(s, p) {
      assert OccursAt(s, p, 0);
    } else if |s| > 0 {
      ContainsIff(s[1..], p);
      if Contains(s[1..], p) {
        var i :| OccursAt(s[1..], p, i);
        assert s[1..][i..i + |p|] == s[i + 1..i + 1 + |p|];
        assert OccursAt(s, p, i + 1);
      }
      if i :| OccursAt(s, p, i) {
        assert i != 0;
        assert s[1..][i - 1..i - 1 + |p|] == s[i..i + |p|];
        assert OccursAt(s[1..], p, i - 1);
      }
    } else {
      assert p != [];
    }
  }

  /** A substring of a substring of s is a substring of s. */
  lemma SubstringTransitive(s: string, p: string, q: string)
    requires Contains(s, p) && Contains(p, q)
    ensures Contains(s, q)
  {
    ContainsIff(s, p);
    ContainsIff(p, q);
    ContainsIff(s, q);
    var i :| OccursAt(s, p, i);
    var j :| OccursAt(p, q, j);
    var inS, inP := s[i + j..i + j + |q|], p[j..j + |q|];
    assert forall t :: 0 <= t < |q| ==> inS[t] == inP[t];
    assert OccursAt(s, q, i + j);
  }

  /** The characters at which `strcspn(buf, "\r\n")` (or the C string itself) stops. */
  predicate IsLineEnd(c: char) {
    c == '\r' || c == '\n' || c == '\0'
  }

  /** `strcspn(s, "\r\n")` on the C string s: the index of its first line end. */
  function CutIndex(s: string): (k: nat)
    ensures k <= |s|
    ensures forall j :: 0 <= j < k ==> !IsLineEnd(s[j])
    ensures k < |s| ==> IsLineEnd(s[k])
  {
    if s == [] || IsLineEnd(s[0]) then 0 else 1 + CutIndex(s[1..])
  }

  /** The line as the inspection sees it once its line ending is cut off. */
  function Trim(s: string): (t: string)
    ensures |t| <= |s| && t == s[..|t|]
    ensures forall j :: 0 <= j < |t| ==> !IsLineEnd(t[j])
    ensures |t| < |s| ==> IsLineEnd(s[|t|])
  {
    s[..CutIndex(s)]
  }

  /** A line with no line end in it followed by one line end trims to the line. */
  lemma TrimTerminated(s: string, c: char)
    requires forall j :: 0 <= j < |s| ==> !IsLineEnd(s[j])
    requires IsLineEnd(c)
    ensures Trim(s + [c]) == s
  {
    var u := s + [c];
    assert forall j :: 0 <= j < |s| ==> u[j] == s[j];
    assert u[|s|] == c;
    var t := Trim(u);
    assert |t| == |s|;
    assert t == u[..|s|];
  }

  /** A pattern with a character that does not occur in s is not found in s. */
  lemma {:induction false} LacksChar(s: string, p: string, k: nat)
    requires k < |p| && p[k] !in s
    ensures !Contains(s, p)
    decreases |s|
  {
    if |p| <= |s| {
      assert s[..|p|][k] == s[k];
      assert s[k] in s;
    }
    if |s| > 0 {
      assert forall c :: c in s[1..] ==> c in s;
      LacksChar(s[1..], p, k);
    }
  }

  /** An occurrence at a known index is found by the search. */
  lemma FoundAt(s: string, p: string, i: nat)
    requires i + |p| <= |s| && s[i..i + |p|] == p
    ensures Contains(s, p)
  {
    ContainsIff(s, p);
    assert OccursAt(s, p, i);
  }
}
