/** Stable insertion by an integer key. */
module Sorting {

  /** After every element whose key is no greater. */
  function Position<T>(s: seq<T>, x: T, key: T -> int): (p: nat)
    ensures p <= |s|
    ensures forall i :: p <= i < |s| ==> key(x) < key(s[i])
    ensures 0 < p ==> key(s[p - 1]) <= key(x)
  {
    if s == [] || key(s[|s| - 1]) <= key(x) then |s| else Position(s[..|s| - 1], x, key)
  }

  function Insert<T>(s: seq<T>, x: T, key: T -> int): seq<T> {
    var p := Position(s, x, key);
    s[..p] + [x] + s[p..]
  }

  lemma InsertedAt<T>(s: seq<T>, x: T, key: T -> int)
    ensures
      var p, placed := Position(s, x, key), Insert(s, x, key);
      && |placed| == |s| + 1 && placed[p] == x
      && (forall i :: 0 <= i < p ==> placed[i] == s[i])
      && (forall i :: p < i <= |s| ==> placed[i] == s[i - 1])
  {
    hide Position;
  }

  lemma InsertHolds<T>(s: seq<T>, x: T, key: T -> int)
    ensures multiset(Insert(s, x, key)) == multiset(s) + multiset{x}
  {
    var p := Position(s, x, key);
    assert s == s[..p] + s[p..];
  }
}
