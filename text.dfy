/**
  The string operations the core relies on: Java's `String.trim()`, the
  "null or blank" test `s == null || s.trim().isEmpty()` that guards every
  user-supplied string, and `startsWith`.
 */
module Text {
  import opened Wrappers

  /** `trim()` removes leading and trailing chars whose code is at most U+0020. */
  predicate IsTrimmable(c: char) {
    c <= ' '
  }

  /** The index of the first char at or after `i` that `trim()` keeps, or `|s|` if there is none. */
  function SkipLeading(s: string, i: nat): (k: nat)
    requires i <= |s|
    ensures i <= k <= |s|
    ensures forall m :: i <= m < k ==> IsTrimmable(s[m])
    ensures k < |s| ==> !IsTrimmable(s[k])
    decreases |s| - i
  {
    if i < |s| && IsTrimmable(s[i]) then SkipLeading(s, i + 1) else i
  }

  /** The end (exclusive) of the text kept before `j`, scanning back no further than `lo`. */
  function SkipTrailing(s: string, lo: nat, j: nat): (e: nat)
    requires lo <= j <= |s|
    ensures lo <= e <= j
    ensures forall m :: e <= m < j ==> IsTrimmable(s[m])
    ensures lo < e ==> !IsTrimmable(s[e - 1])
  {
    if lo < j && IsTrimmable(s[j - 1]) then SkipTrailing(s, lo, j - 1) else j
  }

  /**
    Java's `String.trim()`: the slice of `s` left once the longest trimmable
    prefix and then the longest trimmable suffix are removed. It is never
    longer than `s` and neither begins nor ends with a trimmable char;
    `TrimProperties` says which slice it is.
   */
  function Trim(s: string): (r: string)
    ensures |r| <= |s|
    ensures r != [] ==> !IsTrimmable(r[0]) && !IsTrimmable(r[|r| - 1])
  {
    var b := SkipLeading(s, 0);
    s[b..SkipTrailing(s, b, |s|)]
  }

  /**
    What `trim()` returns: the slice `s[i..j]` where everything before `i` and
    from `j` on is trimmable and the chars at `i` and `j - 1` are not, so the
    slice is the unique one that removes exactly the trimmable ends. It is
    empty exactly when every char of `s` is trimmable.
   */
  lemma TrimProperties(s: string)
    ensures exists i, j ::
      && 0 <= i <= j <= |s| && Trim(s) == s[i..j]
      && (forall m :: 0 <= m < i ==> IsTrimmable(s[m]))
      && (forall m :: j <= m < |s| ==> IsTrimmable(s[m]))
      && (i < |s| ==> !IsTrimmable(s[i]))
      && (i < j ==> !IsTrimmable(s[j - 1]))
    ensures Trim(s) == [] <==> forall i :: 0 <= i < |s| ==> IsTrimmable(s[i])
  {
    var b := SkipLeading(s, 0);
    var e := SkipTrailing(s, b, |s|);
    assert Trim(s) == s[b..e];
  }

  /** `s.trim().isEmpty()`. */
  predicate IsBlank(s: string) {
    Trim(s) == []
  }

  /** `s == null || s.trim().isEmpty()`. */
  predicate IsNullOrBlank(s: Option<string>) {
    s.None? || IsBlank(s.value)
  }

  /** `s.startsWith(prefix)`. */
  predicate StartsWith(s: string, prefix: string) {
    |prefix| <= |s| && s[..|prefix|] == prefix
  }

  /** A blank string is one made only of trimmable chars; the empty string is blank. */
  lemma BlankIffAllTrimmable(s: string)
    ensures IsBlank(s) <==> forall i :: 0 <= i < |s| ==> IsTrimmable(s[i])
    ensures IsBlank([])
  {
    TrimProperties(s);
  }
}
