// A value that may be missing, and members of rearranged sequences.
module Wrappers {
  datatype Option<T> = None | Some(value: T)

  lemma MemberAt<T>(s: seq<T>, t: seq<T>, i: nat) returns (j: nat)
    requires multiset(s) == multiset(t) && i < |s|
    ensures j < |t| && t[j] == s[i]
  {
    assert s[i] in multiset(s);
    assert s[i] in t;
    j :| 0 <= j < |t| && t[j] == s[i];
  }
}
