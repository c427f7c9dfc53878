/** Searching and splitting text at a character. */
module Strings {
  /** The index of the first `c`, or the length if there is none. */
  function Find(c: char, s: string): (k: nat)
    ensures k <= |s| && c !in s[..k] && (k < |s| ==> s[k] == c)
  {
    if s == "" || s[0] == c then 0
    else
      var k := Find(c, s[1..]) + 1;
      assert s[..k] == [s[0]] + s[1..][..k - 1];
      k
  }

  lemma {:induction false} FindAfter(c: char, a: string, b: string)
    requires c !in a
    ensures Find(c, a + [c] + b) == |a|
    decreases a
  {
    var s := a + [c] + b;
    if a == "" {
      assert s[0] == c;
    } else {
      FindAfter(c, a[1..], b);
      assert s[0] == a[0] && s[1..] == a[1..] + [c] + b;
    }
  }

  /** `str.split`: the parts between the occurrences of `c`. */
  function Split(c: char, s: string): seq<string> {
    var k := Find(c, s);
    if k == |s| then [s] else [s[..k]] + Split(c, s[k + 1..])
  }

  lemma {:induction false} SplitOnce(c: char, a: string, b: string)
    requires c !in a && c !in b
    ensures Split(c, a + [c] + b) == [a, b]
  {
    FindAfter(c, a, b);
    var s := a + [c] + b;
    assert s[..|a|] == a && s[|a| + 1..] == b;
    assert Find(c, b) == |b|;
  }
}
