/** The in-place sort both allocators start with. Any sort will do for them: nothing
    they compute depends on the order of channels with equal keys. */
module ChannelSort {
  import opened Channels

  predicate SortedBy(s: seq<Channel>, key: Channel -> int) {
    forall i, j :: 0 <= i < j < |s| ==> key(s[i]) <= key(s[j])
  }

  method Swap(a: array<Channel>, i: nat, j: nat)
    requires i < j < a.Length
    modifies a
    ensures a[..] == old(a[..])[i := old(a[j])][j := old(a[i])]
    ensures multiset(a[..]) == multiset(old(a[..]))
  {
    a[i], a[j] := a[j], a[i];
  }

  method Sort(a: array<Channel>, key: Channel -> int)
    modifies a
    ensures SortedBy(a[..], key)
    ensures multiset(a[..]) == multiset(old(a[..]))
  {
    var n := 0;
    while n < a.Length
      invariant n <= a.Length
      invariant forall i, j :: 0 <= i < j < n ==> key(a[i]) <= key(a[j])
      invariant multiset(a[..]) == multiset(old(a[..]))
    {
      var k := n;
      while k > 0 && key(a[k]) < key(a[k - 1])
        invariant k <= n
        invariant forall i, j :: 0 <= i < j <= n && j != k ==> key(a[i]) <= key(a[j])
        invariant multiset(a[..]) == multiset(old(a[..]))
      {
        Swap(a, k - 1, k);
        k := k - 1;
      }
      n := n + 1;
    }
  }

  lemma MultisetMembers(s: seq<Channel>, t: seq<Channel>)
    requires multiset(s) == multiset(t)
    ensures forall c :: c in s <==> c in t
  {
    forall c
      ensures c in s <==> c in t
    {
      assert c in multiset(s) <==> c in multiset(t);
    }
  }
}
