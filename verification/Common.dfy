/** Small things several components use. */
module Common {

  datatype Option<+T> = None | Some(value: T)

  /** The first position of c in s, or |s|. */
  function IndexOf(s: string, c: char): (i: nat)
    ensures i <= |s|
    ensures i < |s| ==> s[i] == c
    ensures c !in s[..i]
  {
    if s == "" || s[0] == c then 0 else
      var i := 1 + IndexOf(s[1..], c);
      assert s[..i] == [s[0]] + s[1..][..i - 1];
      i
  }

  lemma FirstIndex(s: string, t: string, c: char)
    requires c !in s
    ensures IndexOf(s, c) == |s|
    ensures t != "" && t[0] == c ==> IndexOf(s + t, c) == |s|
  {
    hide IndexOf;
    var i := IndexOf(s + t, c);
    assert forall k | 0 <= k < i :: (s + t)[k] in (s + t)[..i];
    assert forall k | 0 <= k < |s| :: (s + t)[k] == s[k];
    assert t != "" ==> (s + t)[|s|] == t[0];
  }
}
