/** Grouping packets in a dictionary, as the EAPOL and DHCP analysers do before they sort each group. */
module PacketGroups {
  import opened CaptureOrder

  /** `ids` is the group of key `k`: every packet with that key, in file order. */
  ghost predicate IsGroup<K(!new)>(keys: seq<K>, n: nat, k: K, ids: seq<nat>)
    requires n <= |keys|
  {
    && (forall i, j :: 0 <= i < j < |ids| ==> ids[i] < ids[j])
    && (forall x: nat :: x in ids <==> x < n && keys[x] == k)
  }

  /** The dictionary after the first `n` packets; `order` holds its keys in the order they were first seen. */
  ghost predicate Grouped<K(!new)>(keys: seq<K>, n: nat, order: seq<K>, groups: map<K, seq<nat>>)
    requires n <= |keys|
  {
    && (forall k :: k in order <==> k in groups)
    && (forall i, j :: 0 <= i < j < |order| ==> order[i] != order[j])
    && (forall x: nat :: x < n ==> keys[x] in groups)
    && (forall k :: k in groups ==> IsGroup(keys, n, k, groups[k]) && groups[k] != [])
  }

  method GroupBy<K(==, !new)>(keys: seq<K>) returns (order: seq<K>, groups: map<K, seq<nat>>)
    ensures Grouped(keys, |keys|, order, groups)
  {
    order, groups := [], map[];
    for n := 0 to |keys|
      invariant Grouped(keys, n, order, groups)
    {
      var key := keys[n];
      if key !in groups {
        groups, order := groups[key := []], order + [key];
        assert IsGroup(keys, n, key, []);
      }
      ghost var before := groups;
      groups := groups[key := groups[key] + [n]];
      forall k | k in groups ensures IsGroup(keys, n + 1, k, groups[k]) && groups[k] != [] {
        assert IsGroup(keys, n, k, before[k]);
        assert forall i :: 0 <= i < |before[k]| ==> before[k][i] in before[k];
      }
    }
  }

  /** The packets of a group in time order. */
  method SortGroup<K(!new)>(times: seq<real>, keys: seq<K>, k: K, ids: seq<nat>) returns (sorted: seq<nat>)
    requires |times| == |keys| && IsGroup(keys, |keys|, k, ids)
    ensures Ordered(times, sorted) && |sorted| == |ids|
    ensures forall x: nat :: x in sorted <==> x < |keys| && keys[x] == k
  {
    assert forall i :: 0 <= i < |ids| ==> ids[i] in ids;
    sorted := SortByTime(times, ids);
  }
}
