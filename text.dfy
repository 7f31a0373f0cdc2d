/** Character search on strings, as used by the regular expressions of the site. */
module Text {
  import opened Wrappers

  /** `needle` occurs in `hay` starting at index `i`. */
  ghost predicate OccursAt(needle: string, hay: string, i: int) {
    0 <= i <= |hay| - |needle| && hay[i..i + |needle|] == needle
  }

  /** `needle` occurs in `hay` as a contiguous slice. */
  ghost predicate IsSubstring(needle: string, hay: string) {
    exists i :: OccursAt(needle, hay, i)
  }

  /** Index of the first occurrence of `c` in `s`, or None when `c` does not occur. */
  function FirstIndexOf(s: string, c: char): (r: Option<nat>)
    ensures r.Some? ==> r.value < |s| && s[r.value] == c
    ensures r.Some? ==> forall k :: 0 <= k < r.value ==> s[k] != c
    ensures r.None? <==> forall k :: 0 <= k < |s| ==> s[k] != c
  {
    if |s| == 0 then None
    else if s[0] == c then Some(0)
    else match FirstIndexOf(s[1..], c)
      case None => None
      case Some(i) => Some(i + 1)
  }

  /** Index of the last occurrence of `c` in `s`, or None when `c` does not occur. */
  function LastIndexOf(s: string, c: char): (r: Option<nat>)
    ensures r.Some? ==> r.value < |s| && s[r.value] == c
    ensures r.Some? ==> forall k :: r.value < k < |s| ==> s[k] != c
    ensures r.None? <==> forall k :: 0 <= k < |s| ==> s[k] != c
  {
    if |s| == 0 then None
    else if s[|s| - 1] == c then Some(|s| - 1)
    else LastIndexOf(s[..|s| - 1], c)
  }

  /** The first occurrence of `c` in `a + b` lies in `b` when `a` has none. */
  lemma {:induction false} FirstIndexOfAfterPrefix(a: string, b: string, c: char, i: nat)
    requires forall k :: 0 <= k < |a| ==> a[k] != c
    requires i < |b| && b[i] == c && forall k :: 0 <= k < i ==> b[k] != c
    ensures FirstIndexOf(a + b, c) == Some(|a| + i)
  {
    var s := a + b;
    assert s[|a| + i] == c;
    assert forall k :: 0 <= k < |a| + i ==> s[k] != c by {
      forall k | 0 <= k < |a| + i ensures s[k] != c {
        if k < |a| { assert s[k] == a[k]; } else { assert s[k] == b[k - |a|]; }
      }
    }
  }
}
