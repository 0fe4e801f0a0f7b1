/**
 * Facts about buffers and the C view of them. `ConsSlice` and `SliceSplit`
 * are sequence identities used as proof steps by the lexer methods.
 */
module Scanning {

  /** A character put in front of the slice that follows it extends the slice. */
  lemma ConsSlice(s: string, j: nat, k: nat)
    requires j < k <= |s|
    ensures [s[j]] + s[j + 1..k] == s[j..k]
  {
  }

  /** Two adjacent slices join into one. */
  lemma SliceSplit(s: string, i: nat, m: nat, k: nat)
    requires i <= m <= k <= |s|
    ensures s[i..m] + s[m..k] == s[i..k]
  {
  }

  /**
   * The text a C routine sees through the NUL-terminated view of a buffer:
   * everything before the first '\0'. Real input never puts a NUL in a
   * buffer; for a text that holds one, stopping there is this model's choice.
   */
  function CString(b: string): (r: string)
    ensures |r| <= |b| && r == b[..|r|]
    ensures '\0' !in r
    ensures |r| < |b| ==> b[|r|] == '\0'
  {
    if b == [] || b[0] == '\0' then [] else [b[0]] + CString(b[1..])
  }

  /** A buffer without NUL characters is seen whole. */
  lemma CStringWithoutNul(b: string)
    requires '\0' !in b
    ensures CString(b) == b
  {
  }
}
