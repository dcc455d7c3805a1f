/**
 * String search and first-occurrence replacement, as JavaScript's
 * `String.prototype.indexOf` and `String.prototype.replace` behave when the
 * pattern is a plain string (not a regular expression).
 */
module Strings {

  /** `pat` occurs in `s` starting at index `i`. */
  predicate OccursAt(s: string, pat: string, i: int) {
    0 <= i && i + |pat| <= |s| && s[i..i + |pat|] == pat
  }

  /** `pat` occurs somewhere in `s`. */
  ghost predicate Occurs(s: string, pat: string) {
    exists i :: OccursAt(s, pat, i)
  }

  /** `i` is the leftmost index at which `pat` occurs in `s`. */
  ghost predicate FirstOccurrence(s: string, pat: string, i: int) {
    OccursAt(s, pat, i) && forall j :: 0 <= j < i ==> !OccursAt(s, pat, j)
  }

  /** Leftmost occurrence of `pat` in `s` at or after `from`, or -1. */
  function IndexFrom(s: string, pat: string, from: nat): (r: int)
    ensures r == -1 || (from <= r && r + |pat| <= |s|)
    decreases |s| - from
  {
    if from + |pat| > |s| then -1
    else if s[from..from + |pat|] == pat then from
    else IndexFrom(s, pat, from + 1)
  }

  /** `s.indexOf(pat)`: the leftmost occurrence of `pat` in `s`, or -1 when there is none. */
  function IndexOf(s: string, pat: string): (r: int)
    ensures r == -1 || (0 <= r && r + |pat| <= |s|)
  {
    IndexFrom(s, pat, 0)
  }

  /**
   * `s.replace(pat, rep)` with a string pattern: the first occurrence of `pat`
   * is replaced by `rep`; when `pat` does not occur, `s` is returned unchanged.
   */
  function ReplaceFirst(s: string, pat: string, rep: string): (r: string)
    ensures !Occurs(s, pat) ==> r == s
    ensures Occurs(s, pat) ==> |r| == |s| - |pat| + |rep|
  {
    IndexOfFindsFirst(s, pat);
    var i := IndexOf(s, pat);
    if i < 0 then s else s[..i] + rep + s[i + |pat|..]
  }

  /** The search from `from` finds the leftmost occurrence at or after `from`, or reports -1 when there is none. */
  lemma {:induction false} IndexFromFindsFirst(s: string, pat: string, from: nat)
    ensures var r := IndexFrom(s, pat, from);
            && (r == -1 || (from <= r && OccursAt(s, pat, r)))
            && (forall j :: from <= j && (r == -1 || j < r) ==> !OccursAt(s, pat, j))
    decreases |s| - from
  {
    if from + |pat| <= |s| && s[from..from + |pat|] != pat {
      IndexFromFindsFirst(s, pat, from + 1);
    }
  }

  /** `indexOf` is -1 exactly when the pattern does not occur, and otherwise the leftmost occurrence. */
  lemma IndexOfFindsFirst(s: string, pat: string)
    ensures IndexOf(s, pat) == -1 <==> !Occurs(s, pat)
    ensures IndexOf(s, pat) != -1 ==> FirstOccurrence(s, pat, IndexOf(s, pat))
  {
    IndexFromFindsFirst(s, pat, 0);
  }

  /** `replace` leaves a string without the pattern unchanged and otherwise replaces exactly the leftmost occurrence. */
  lemma ReplaceFirstReplacesFirst(s: string, pat: string, rep: string)
    ensures !Occurs(s, pat) ==> ReplaceFirst(s, pat, rep) == s
    ensures forall i :: FirstOccurrence(s, pat, i) ==> ReplaceFirst(s, pat, rep) == s[..i] + rep + s[i + |pat|..]
  {
    IndexOfFindsFirst(s, pat);
  }

  /** No proper prefix of `pat` is also a suffix of it, so two occurrences of `pat` never overlap. */
  ghost predicate Borderless(pat: string) {
    forall k :: 0 < k < |pat| ==> pat[k..] != pat[..|pat| - k]
  }

  /**
   * Removing the first occurrence of a borderless pattern from `n + pat`
   * gives back `n`, provided `pat` does not already occur in `n`.
   */
  lemma {:induction false} ReplaceFirstOfAppended(n: string, pat: string)
    requires Borderless(pat)
    requires !Occurs(n, pat)
    ensures ReplaceFirst(n + pat, pat, "") == n
  {
    var s := n + pat;
    assert OccursAt(s, pat, |n|) by { assert s[|n|..|n| + |pat|] == pat; }
    forall j | 0 <= j < |n| ensures !OccursAt(s, pat, j) {
      if j + |pat| <= |n| {
        // a window inside n, where pat does not occur
        assert s[j..j + |pat|] == n[j..j + |pat|];
        assert !OccursAt(n, pat, j);
      } else {
        // a window straddling the end of n: its tail is a proper prefix of pat
        var k := |n| - j;
        assert s[j..j + |pat|][k..] == pat[..|pat| - k];
        assert pat[k..] != pat[..|pat| - k];
      }
    }
    assert FirstOccurrence(s, pat, |n|);
    ReplaceFirstReplacesFirst(s, pat, "");
    assert s[..|n|] + "" + s[|n| + |pat|..] == n;
  }

  /** `ReplaceFirstOfAppended` for a string that ends with the pattern, stated as an implication. */
  lemma ReplaceFirstOfSuffixed(s: string, pat: string)
    ensures var k := |s| - |pat|;
            0 <= k && s[k..] == pat && Borderless(pat) && !Occurs(s[..k], pat) ==> ReplaceFirst(s, pat, "") == s[..k]
  {
    var k := |s| - |pat|;
    if 0 <= k && s[k..] == pat && Borderless(pat) && !Occurs(s[..k], pat) {
      assert s == s[..k] + pat;
      ReplaceFirstOfAppended(s[..k], pat);
    }
  }

  /** A pattern that starts with a character it never repeats is borderless. */
  lemma {:induction false} LeadingUniqueIsBorderless(pat: string)
    requires |pat| > 0
    requires forall k :: 0 < k < |pat| ==> pat[k] != pat[0]
    ensures Borderless(pat)
  {
    forall k | 0 < k < |pat| ensures pat[k..] != pat[..|pat| - k] {
      assert pat[k..][0] == pat[k];
      assert pat[..|pat| - k][0] == pat[0];
    }
  }

  /** A pattern does not occur in a string that lacks its first character. */
  lemma {:induction false} NoLeadNoOccurrence(s: string, pat: string)
    requires |pat| > 0
    requires forall k :: 0 <= k < |s| ==> s[k] != pat[0]
    ensures !Occurs(s, pat)
  {
    forall i ensures !OccursAt(s, pat, i) {
      if 0 <= i && i + |pat| <= |s| {
        assert s[i..i + |pat|][0] != pat[0];
      }
    }
  }
}
