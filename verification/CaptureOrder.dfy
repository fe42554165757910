/** The time order of a packet capture, shared by the DNS, EAPOL and DHCP analysers.

    A capture is a sequence of packets; here only their timestamps matter, and a packet is named by
    its position in the capture. Every analyser sorts by timestamp and keeps capture order among equal
    timestamps, so the order they work in is `Before`. */
module CaptureOrder {

  /** Packet `a` comes before packet `b`: earlier timestamp, or same timestamp and earlier in the file. */
  predicate Before(times: seq<real>, a: nat, b: nat) {
    a < |times| && b < |times| && (times[a] < times[b] || (times[a] == times[b] && a < b))
  }

  ghost predicate InCapture(times: seq<real>, ids: seq<nat>) {
    forall i :: 0 <= i < |ids| ==> ids[i] < |times|
  }

  /** `ids` lists packets in strictly increasing time order. */
  ghost predicate Ordered(times: seq<real>, ids: seq<nat>) {
    && InCapture(times, ids)
    && forall i, j :: 0 <= i < j < |ids| ==> Before(times, ids[i], ids[j])
  }

  /** `ids` lists packets in file order, each at most once. */
  ghost predicate InFileOrder(times: seq<real>, ids: seq<nat>) {
    && InCapture(times, ids)
    && forall i, j :: 0 <= i < j < |ids| ==> ids[i] < ids[j]
  }

  ghost predicate SameElements(a: seq<nat>, b: seq<nat>) {
    forall x :: x in a <==> x in b
  }

  /** A packet later than the last of a listing, and so than all of it, can be added behind it. */
  lemma AppendLast(times: seq<real>, ordered: seq<nat>, id: nat)
    requires Ordered(times, ordered) && id < |times|
    requires (forall x :: x in ordered ==> Before(times, x, id))
             || (ordered != [] && Before(times, ordered[|ordered| - 1], id))
    ensures Ordered(times, ordered + [id])
    ensures forall x :: x in ordered + [id] <==> x == id || x in ordered
  {
    forall i | 0 <= i < |ordered| ensures Before(times, ordered[i], id) {
      assert ordered[i] in ordered;
    }
  }

  /** Put `id` behind every packet that is not later than it: the step of a stable sort on the
      timestamp alone. */
  function InsertByTime(times: seq<real>, ordered: seq<nat>, id: nat): (r: seq<nat>)
    requires id < |times|
    requires Ordered(times, ordered)
    requires forall x :: x in ordered ==> x < id
    ensures Ordered(times, r)
    ensures |r| == |ordered| + 1
    ensures forall x :: x in r <==> x == id || x in ordered
  {
    if ordered == [] then [id]
    else
      var last := ordered[|ordered| - 1];
      var front := ordered[..|ordered| - 1];
      assert ordered == front + [last];
      assert last in ordered && forall x :: x in front ==> x in ordered;
      if times[last] <= times[id] then
        AppendLast(times, ordered, id);
        ordered + [id]
      else
        var r := InsertByTime(times, front, id);
        assert forall x :: x in front ==> Before(times, x, last);
        AppendLast(times, r, last);
        r + [last]
  }

  /** `list.sort(key=time)` on packets given in file order: stable, so the outcome is the `Before` order. */
  function SortByTime(times: seq<real>, ids: seq<nat>): (r: seq<nat>)
    requires InFileOrder(times, ids)
    ensures Ordered(times, r)
    ensures |r| == |ids|
    ensures SameElements(r, ids)
  {
    if ids == [] then []
    else
      var front := ids[..|ids| - 1];
      assert ids == front + [ids[|ids| - 1]];
      InsertByTime(times, SortByTime(times, front), ids[|ids| - 1])
  }

  /** The positions 0 .. n-1 of a capture of n packets. */
  function Positions(n: nat): (ids: seq<nat>)
    ensures |ids| == n && forall i :: 0 <= i < n ==> ids[i] == i
    ensures forall x: nat :: x in ids <==> x < n
  {
    if n == 0 then [] else Positions(n - 1) + [n - 1]
  }

  /** Two time-ordered listings of the same packets are equal, so it does not matter which sorting
      algorithm produced the order. */
  lemma {:induction false} OrderIsUnique(times: seq<real>, a: seq<nat>, b: seq<nat>)
    requires Ordered(times, a) && Ordered(times, b)
    requires SameElements(a, b) && |a| == |b|
    ensures a == b
  {
    if a != [] {
      assert a[0] in b;
      assert b[0] in a;
      var i :| 0 <= i < |a| && a[i] == b[0];
      var j :| 0 <= j < |b| && b[j] == a[0];
      assert i == 0 && j == 0;
      assert SameElements(a[1..], b[1..]) by {
        forall x | x in a[1..] ensures x in b[1..] { assert x in b; }
        forall x | x in b[1..] ensures x in a[1..] { assert x in a; }
      }
      OrderIsUnique(times, a[1..], b[1..]);
      assert a == [a[0]] + a[1..] && b == [b[0]] + b[1..];
    }
  }

  /** In a time-ordered listing, position order and time order say the same. */
  lemma PositionIsTime(times: seq<real>, ids: seq<nat>, i: nat, j: nat)
    requires Ordered(times, ids) && i < |ids| && j < |ids|
    ensures Before(times, ids[i], ids[j]) <==> i < j
  {
    if j < i { assert Before(times, ids[j], ids[i]); }
  }
}
