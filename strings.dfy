/**
  Java's String.trim: removes every leading and trailing character whose code is
  at most that of the space character (U+0020).
 */
module JavaStrings {

  predicate IsTrimmed(c: char)
  {
    c <= ' '
  }

  /** The number of characters trim removes from the front. */
  function LeadingSpace(s: string): (k: nat)
    ensures k <= |s|
    ensures forall i :: 0 <= i < k ==> IsTrimmed(s[i])
    ensures k < |s| ==> !IsTrimmed(s[k])
  {
    if s == [] || !IsTrimmed(s[0]) then 0
    else 1 + LeadingSpace(s[1..])
  }

  /** Where the run of characters trim removes from the back begins. */
  function TrailingStart(s: string): (k: nat)
    ensures k <= |s|
    ensures forall i :: k <= i < |s| ==> IsTrimmed(s[i])
    ensures 0 < k ==> !IsTrimmed(s[k - 1])
  {
    if s == [] || !IsTrimmed(s[|s| - 1]) then |s|
    else TrailingStart(s[..|s| - 1])
  }

  /** Trim keeps one contiguous slice of its input, drops only characters at
      most U+0020 around it, and leaves none of them at either end. */
  function Trim(s: string): (r: string)
    ensures LeadingSpace(s) + |r| <= |s|
    ensures r == s[LeadingSpace(s)..LeadingSpace(s) + |r|]
    ensures forall i :: LeadingSpace(s) + |r| <= i < |s| ==> IsTrimmed(s[i])
    ensures r != [] ==> !IsTrimmed(r[0]) && !IsTrimmed(r[|r| - 1])
  {
    var b := LeadingSpace(s);
    if b == |s| then []
    else
      var e := TrailingStart(s);
      assert b < e;
      s[b..e]
  }

  /** A string that neither starts nor ends with such a character is its own trim. */
  lemma TrimUnchanged(s: string)
    requires s == [] || (!IsTrimmed(s[0]) && !IsTrimmed(s[|s| - 1]))
    ensures Trim(s) == s
  {
    if s != [] {
      assert LeadingSpace(s) == 0;
      assert TrailingStart(s) == |s|;
      assert s[0..|s|] == s;
    }
  }

  /** Trimming twice is trimming once. */
  lemma TrimIdempotent(s: string)
    ensures Trim(Trim(s)) == Trim(s)
  {
    TrimUnchanged(Trim(s));
  }
}
