/** Small facts about sequences used by the layout and archetype tables. */
module Seqs {
  import opened Outcomes

  /** No element occurs twice in `s`. */
  ghost predicate NoDup<T>(s: seq<T>) {
    forall a, b :: 0 <= a < b < |s| ==> s[a] != s[b]
  }

  /** The position of the first occurrence of `x` in `s`, found by a linear scan. */
  function IndexOf<T(==)>(s: seq<T>, x: T): (r: Option<nat>)
    ensures r.None? <==> x !in s
    ensures r.Some? ==> r.value < |s| && s[r.value] == x
    ensures r.Some? ==> forall k :: 0 <= k < r.value ==> s[k] != x
  {
    if |s| == 0 then None
    else if s[0] == x then Some(0)
    else
      match IndexOf(s[1..], x)
      case None => assert s == [s[0]] + s[1..]; None
      case Some(k) => Some(k + 1)
  }

  /** Element-wise equality, the way Rust compares two vectors. */
  function ElementwiseEq<T(==)>(a: seq<T>, b: seq<T>): (r: bool)
    ensures r <==> a == b
  {
    if |a| != |b| then false
    else if |a| == 0 then true
    else if a[0] != b[0] then false
    else
      var rest := ElementwiseEq(a[1..], b[1..]);
      assert a == [a[0]] + a[1..] && b == [b[0]] + b[1..];
      rest
  }

  /** `s` with the element at position `k` removed, later elements shifted down. */
  function RemoveAt<T>(s: seq<T>, k: nat): (r: seq<T>)
    requires k < |s|
    ensures |r| == |s| - 1
    ensures forall m :: 0 <= m < k ==> r[m] == s[m]
    ensures forall m :: k <= m < |r| ==> r[m] == s[m + 1]
  {
    s[..k] + s[k + 1..]
  }

  /** Removing position `k` removes exactly the value there when values are distinct. */
  lemma RemoveAtMembers<T>(s: seq<T>, k: nat)
    requires k < |s|
    requires NoDup(s)
    ensures NoDup(RemoveAt(s, k))
    ensures s[k] !in RemoveAt(s, k)
    ensures forall y :: y != s[k] ==> (y in RemoveAt(s, k) <==> y in s)
  {
    var r := RemoveAt(s, k);
    forall a, b | 0 <= a < b < |r|
      ensures r[a] != r[b]
    {
      var a' := if a < k then a else a + 1;
      var b' := if b < k then b else b + 1;
      assert r[a] == s[a'] && r[b] == s[b'] && a' < b';
    }
    forall y
      ensures y in r ==> y in s && y != s[k]
      ensures y in s && y != s[k] ==> y in r
    {
      if y in r {
        var m :| 0 <= m < |r| && r[m] == y;
        var m' := if m < k then m else m + 1;
        assert s[m'] == y && m' != k;
      }
      if y in s && y != s[k] {
        var m :| 0 <= m < |s| && s[m] == y;
        assert m != k;
        if m < k {
          assert r[m] == y;
        } else {
          assert r[m - 1] == y;
        }
      }
    }
  }

  /** Appending a value not yet present keeps the elements distinct. */
  lemma AppendFreshNoDup<T>(s: seq<T>, x: T)
    requires NoDup(s)
    requires x !in s
    ensures NoDup(s + [x])
  {
  }
}
