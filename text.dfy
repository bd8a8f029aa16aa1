/**
 * The two string operations the frontend relies on: `String.prototype.toLowerCase`
 * (restricted to ASCII letters) and `String.prototype.includes`.
 */
module Text {

  /** Lower-cases one ASCII upper-case letter; every other character is kept. */
  function LowerChar(c: char): char {
    if 'A' <= c <= 'Z' then (c as int - 'A' as int + 'a' as int) as char else c
  }

  function ToLower(s: string): (r: string)
    ensures |r| == |s|
    ensures forall i :: 0 <= i < |s| ==> r[i] == LowerChar(s[i])
  {
    seq(|s|, i requires 0 <= i < |s| => LowerChar(s[i]))
  }

  lemma ToLowerAppend(a: string, b: string)
    ensures ToLower(a + b) == ToLower(a) + ToLower(b)
  {
  }

  /** Text without upper-case ASCII letters is its own lower-case form. */
  lemma ToLowerOfLower(s: string)
    requires forall i :: 0 <= i < |s| ==> !('A' <= s[i] <= 'Z')
    ensures ToLower(s) == s
  {
  }

  /** `sub` occurs in `s` starting at index `i`. */
  predicate OccursAt(s: string, sub: string, i: int) {
    0 <= i && i + |sub| <= |s| && s[i..i + |sub|] == sub
  }

  /** `s.includes(sub)`, scanning from the left. */
  predicate Contains(s: string, sub: string)
    decreases |s|
  {
    |sub| <= |s| && (s[..|sub|] == sub || (|s| > 0 && Contains(s[1..], sub)))
  }

  /** The scan finds `sub` exactly when `sub` occurs at some index of `s`. */
  lemma {:induction false} ContainsIffOccurs(s: string, sub: string)
    ensures Contains(s, sub) <==> exists i :: OccursAt(s, sub, i)
    decreases |s|
  {
    if Contains(s, sub) {
      if s[..|sub|] == sub {
        assert OccursAt(s, sub, 0);
      } else {
        ContainsIffOccurs(s[1..], sub);
        var i :| OccursAt(s[1..], sub, i);
        assert s[i + 1..i + 1 + |sub|] == s[1..][i..i + |sub|];
        assert OccursAt(s, sub, i + 1);
      }
    }
    if i :| OccursAt(s, sub, i) {
      if i == 0 {
        assert s[..|sub|] == sub;
      } else {
        assert s[1..][i - 1..i - 1 + |sub|] == s[i..i + |sub|];
        assert OccursAt(s[1..], sub, i - 1);
        ContainsIffOccurs(s[1..], sub);
      }
    }
  }

  /** Text that has `sub` in the middle contains it. */
  lemma ContainsMiddle(a: string, sub: string, c: string)
    ensures Contains(a + sub + c, sub)
  {
    var s := a + sub + c;
    assert s[|a|..|a| + |sub|] == sub;
    assert OccursAt(s, sub, |a|);
    ContainsIffOccurs(s, sub);
  }

  /** `s` never has `x` directly followed by `y`. */
  predicate PairFree(s: string, x: char, y: char) {
    forall i :: 0 <= i < |s| - 1 ==> !(s[i] == x && s[i + 1] == y)
  }

  /** Joining two pair-free texts leaves a pair-free text unless the seam makes the pair. */
  lemma PairFreeAppend(a: string, b: string, x: char, y: char)
    requires PairFree(a, x, y) && PairFree(b, x, y)
    requires a == [] || b == [] || !(a[|a| - 1] == x && b[0] == y)
    ensures PairFree(a + b, x, y)
  {
    forall i | 0 <= i < |a + b| - 1
      ensures !((a + b)[i] == x && (a + b)[i + 1] == y)
    {
      if |a| <= i {
        assert (a + b)[i] == b[i - |a|];
      }
    }
  }

  /**
   * If `sub` has the two characters `sub[k]`, `sub[k+1]` next to each other
   * and `s` never has them next to each other, `s` does not contain `sub`.
   */
  lemma NoAdjacentPairNoContains(s: string, sub: string, k: nat)
    requires k + 1 < |sub|
    requires PairFree(s, sub[k], sub[k + 1])
    ensures !Contains(s, sub)
  {
    ContainsIffOccurs(s, sub);
    forall i | 0 <= i && i + |sub| <= |s|
      ensures !OccursAt(s, sub, i)
    {
      assert !(s[i + k] == sub[k] && s[i + k + 1] == sub[k + 1]);
      assert s[i..i + |sub|][k] == s[i + k];
    }
  }

  /** A text that lacks one character of `sub` does not contain `sub`. */
  lemma AbsentNoContains(s: string, sub: string, k: nat)
    requires k < |sub| && sub[k] !in s
    ensures !Contains(s, sub)
  {
    ContainsIffOccurs(s, sub);
    forall i | 0 <= i && i + |sub| <= |s|
      ensures !OccursAt(s, sub, i)
    {
      assert s[i + k] in s;
      assert s[i..i + |sub|][k] == s[i + k];
    }
  }
}
