/** Order-preserving selection from a sequence, as JavaScript's `Array.prototype.filter` does. */
module Seqs {

  function Filter<T(!new)>(s: seq<T>, keep: T -> bool): (r: seq<T>)
    ensures |r| <= |s|
    ensures forall k :: 0 <= k < |r| ==> keep(r[k])
  {
    if |s| == 0 then [] else (if keep(s[0]) then [s[0]] else []) + Filter(s[1..], keep)
  }

  /** Splitting a sequence by a predicate and its complement loses and duplicates nothing. */
  lemma {:induction false} FilterPartition<T(!new)>(s: seq<T>, keep: T -> bool, drop: T -> bool)
    requires forall x :: drop(x) == !keep(x)
    ensures multiset(Filter(s, keep)) + multiset(Filter(s, drop)) == multiset(s)
  {
    if |s| > 0 {
      FilterPartition(s[1..], keep, drop);
      assert s == [s[0]] + s[1..];
    }
  }

  /** Filter keeps exactly the elements of s that satisfy keep. */
  lemma {:induction false} FilterMembers<T(!new)>(s: seq<T>, keep: T -> bool)
    ensures forall k :: 0 <= k < |Filter(s, keep)| ==> Filter(s, keep)[k] in s
    ensures forall x :: x in s && keep(x) ==> x in Filter(s, keep)
  {
    if |s| > 0 {
      FilterMembers(s[1..], keep);
      var head := if keep(s[0]) then [s[0]] else [];
      assert Filter(s, keep) == head + Filter(s[1..], keep);
      forall k | 0 <= k < |Filter(s, keep)|
        ensures Filter(s, keep)[k] in s
      {
        if k >= |head| {
          assert Filter(s, keep)[k] == Filter(s[1..], keep)[k - |head|];
        }
      }
      forall x | x in s && keep(x)
        ensures x in Filter(s, keep)
      {
        if x != s[0] {
          assert x in s[1..];
        }
      }
    }
  }

  /** The position of the first occurrence of v. */
  function FirstIndex<T(==)>(s: seq<T>, v: T): (k: nat)
    requires v in s
    ensures k < |s| && s[k] == v
    ensures forall j :: 0 <= j < k ==> s[j] != v
  {
    if s[0] == v then 0 else 1 + FirstIndex(s[1..], v)
  }
}
