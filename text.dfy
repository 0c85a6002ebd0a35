/** String trimming as JavaScript's String.prototype.trim performs it; used by
    the CORS allowlist and by the web client's form validation. */
module Text {

  /** The characters trim() removes: ECMAScript WhiteSpace (tab, vertical tab,
      form feed, space, no-break space, byte order mark and the other Unicode
      space separators) and LineTerminator (LF, CR, U+2028, U+2029). */
  const Spaces: string := "\t\n\U{B}\U{C}\r \U{A0}\U{1680}\U{2000}\U{2001}\U{2002}\U{2003}\U{2004}\U{2005}\U{2006}\U{2007}\U{2008}\U{2009}\U{200A}\U{2028}\U{2029}\U{202F}\U{205F}\U{3000}\U{FEFF}"

  /** c occurs in Spaces at position k or later. */
  predicate SpaceFrom(c: char, k: nat)
    decreases |Spaces| - k
  {
    k < |Spaces| && (Spaces[k] == c || SpaceFrom(c, k + 1))
  }

  predicate IsSpace(c: char) {
    SpaceFrom(c, 0)
  }

  predicate AllSpace(s: string) {
    forall k :: 0 <= k < |s| ==> IsSpace(s[k])
  }

  /** Neither the first nor the last character is a space. */
  predicate Trimmed(s: string) {
    s == [] || (!IsSpace(s[0]) && !IsSpace(s[|s| - 1]))
  }

  /** The index where the leading spaces of s[i..] stop. */
  function SkipSpaces(s: string, i: nat): (j: nat)
    requires i <= |s|
    ensures i <= j <= |s|
    ensures forall k :: i <= k < j ==> IsSpace(s[k])
    ensures j == |s| || !IsSpace(s[j])
    decreases |s| - i
  {
    if i < |s| && IsSpace(s[i]) then SkipSpaces(s, i + 1) else i
  }

  /** The index where the trailing spaces of s[lo..j] start. */
  function BackSpaces(s: string, lo: nat, j: nat): (e: nat)
    requires lo <= j <= |s|
    ensures lo <= e <= j
    ensures forall k :: e <= k < j ==> IsSpace(s[k])
    ensures e == lo || !IsSpace(s[e - 1])
    decreases j
  {
    if j > lo && IsSpace(s[j - 1]) then BackSpaces(s, lo, j - 1) else j
  }

  /** s.trim(): s without its leading and trailing spaces. */
  function Trim(s: string): (r: string)
    ensures Trimmed(r)
    ensures |r| <= |s|
  {
    var a := SkipSpaces(s, 0);
    s[a..BackSpaces(s, a, |s|)]
  }

  /** A character the input lacks is not in the trimmed text either. */
  lemma TrimKeepsOut(s: string, c: char)
    requires c !in s
    ensures c !in Trim(s)
  {
    var r := Trim(s);
    var a := SkipSpaces(s, 0);
    forall k | 0 <= k < |r| ensures r[k] != c {
      assert r[k] == s[a + k];
    }
  }

  /** Trimming removes exactly the surrounding spaces: a trimmed string padded
      with spaces on either side trims back to itself. */
  lemma TrimPadded(pre: string, t: string, post: string)
    requires AllSpace(pre) && AllSpace(post) && Trimmed(t)
    ensures Trim(pre + t + post) == t
  {
    var s := pre + t + post;
    var a := SkipSpaces(s, 0);
    forall k | 0 <= k < |pre| ensures IsSpace(s[k]) {
      assert s[k] == pre[k];
    }
    forall k | |pre| + |t| <= k < |s| ensures IsSpace(s[k]) {
      assert s[k] == post[k - |pre| - |t|];
    }
    if t == [] {
      assert a == |s|;
    } else {
      assert s[|pre|] == t[0] && s[|pre| + |t| - 1] == t[|t| - 1];
      assert a == |pre|;
      assert BackSpaces(s, a, |s|) == |pre| + |t|;
      assert s[|pre|..|pre| + |t|] == t;
    }
  }

  /** A string trims to the empty string exactly when it is all spaces. */
  lemma TrimEmptyIff(s: string)
    ensures Trim(s) == [] <==> AllSpace(s)
  {
    var a := SkipSpaces(s, 0);
    var e := BackSpaces(s, a, |s|);
    if AllSpace(s) {
      assert a == |s|;
    }
    if Trim(s) == [] {
      assert e == a;
    }
  }
}
