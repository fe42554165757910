/** DHCP transaction evidence (ProtocolEvidenceService.analyze_dhcp and _ordered_dora).

    Packets are grouped by transaction id and client address and each group is sorted by time. The main
    results: a group is reported as a complete exchange exactly when the capture holds DISCOVER, OFFER,
    REQUEST and ACK of that transaction in time order (section 3.1 of RFC 2131), and looking only at
    the first renewing (or rebinding) request of a group loses no renewal. */
module DhcpTransactions {
  import opened Wrappers
  import opened CaptureOrder
  import opened PacketGroups

  datatype MessageType = Discover | Offer | Request | Decline | Ack | Nak | Release | Inform

  /** The four bytes of an address as one number. */
  type Ipv4Address = a: nat | a < 0x1_0000_0000

  datatype Destination = Ipv4(address: Ipv4Address) | NotIpv4

  datatype Phase = Renew | Rebind

  /** A decoded BOOTP/DHCP packet. `messageType`, `clientMac` and `destination` are None when the packet does not
      carry a usable value; an all-zero client hardware address counts as unusable. */
  datatype DhcpPacket = DhcpPacket(
    time: real, messageType: Option<MessageType>, xid: int, clientMac: Option<string>,
    ciaddr: string, destination: Option<Destination>, yiaddr: string)

  datatype GroupKey = Untyped | Transaction(xid: int, clientMac: Option<string>)

  datatype TransactionEvidence = TransactionEvidence(
    key: GroupKey, messageTypes: seq<MessageType>,
    hasDora: bool, isRenewal: bool, isRebind: bool, acknowledgedIp: Option<string>)

  function ClientAddress(p: DhcpPacket): Option<string> {
    if p.ciaddr == "" || p.ciaddr == "0.0.0.0" then None else Some(p.ciaddr)
  }

  function RequestPhase(p: DhcpPacket): Option<Phase> {
    if ClientAddress(p).None? then None
    else match p.destination
      case Some(Ipv4(a)) =>
        var first := a / 0x100_0000;
        if a == 0xFFFF_FFFF then Some(Rebind) else if 224 <= first <= 239 || a == 0 then None else Some(Renew)
      case _ => None
  }

  function KeyOf(p: DhcpPacket): GroupKey {
    if p.messageType.None? then Untyped else Transaction(p.xid, p.clientMac)
  }

  // ---- What the packets say ----------------------------------------------

  predicate InTransaction(p: DhcpPacket, k: GroupKey) {
    p.messageType.Some? && k.Transaction? && p.xid == k.xid && p.clientMac == k.clientMac
  }

  /** A client that has an address asks to keep it: the server that leased it, or everybody by limited broadcast. */
  predicate AsksFor(p: DhcpPacket, phase: Phase) {
    && p.messageType == Some(Request) && p.ciaddr !in {"", "0.0.0.0"}
    && p.destination.Some? && p.destination.value.Ipv4?
    && var address := p.destination.value.address;
       match phase
       case Rebind => address == 0xFFFF_FFFF                                          // 255.255.255.255
       case Renew => 0 < address < 0xE000_0000 || 0xF000_0000 <= address < 0xFFFF_FFFF  // not 224.0.0.0/4
  }

  /** The phase of a request is what its address fields say. */
  lemma PhaseExactly(p: DhcpPacket, phase: Phase)
    requires p.messageType == Some(Request)
    ensures RequestPhase(p) == Some(phase) <==> AsksFor(p, phase)
  {
  }

  // ---- DISCOVER, OFFER, REQUEST, ACK as an ordered subsequence ------------

  const REQUIRED: seq<MessageType> := [Discover, Offer, Request, Ack]

  /** The first `k` required types occur in order among the first `n` messages. */
  ghost predicate Occurs(types: seq<MessageType>, n: nat, k: nat)
    requires n <= |types| && k <= 4
  {
    k == 0 || (n > 0 && (Occurs(types, n - 1, k) || (types[n - 1] == REQUIRED[k - 1] && Occurs(types, n - 1, k - 1))))
  }

  lemma {:induction false} OccursMonotone(types: seq<MessageType>, n: nat, k: nat)
    requires n <= |types| && k < 4 && Occurs(types, n, k + 1)
    ensures Occurs(types, n, k)
  {
    if k > 0 {
      if Occurs(types, n - 1, k + 1) { OccursMonotone(types, n - 1, k); }
    }
  }

  /** The ordered scan: advance to the next required type whenever it appears. */
  method OrderedDora(types: seq<MessageType>) returns (found: bool)
    ensures found <==> exists a: nat, b: nat, c: nat, d: nat :: DoraAt(types, a, b, c, d)
  {
    var position := 0;
    for n := 0 to |types|
      invariant 0 <= position < 4
      invariant Occurs(types, n, position) && !Occurs(types, n, position + 1)
    {
      if position + 2 <= 4 && Occurs(types, n, position + 2) { OccursMonotone(types, n, position + 1); }
      if types[n] == REQUIRED[position] {
        position := position + 1;
        if position == 4 {
          OccursAsPositions(types, n + 1);
          return true;
        }
      }
    }
    if Occurs(types, |types|, 4) { DownTo(types, position + 1); }
    OccursAsPositions(types, |types|);
    return false;
  }

  lemma {:induction false} DownTo(types: seq<MessageType>, k: nat)
    requires k <= 4 && Occurs(types, |types|, 4)
    ensures Occurs(types, |types|, k)
    decreases 4 - k
  {
    if k < 4 {
      DownTo(types, k + 1);
      OccursMonotone(types, |types|, k);
    }
  }

  ghost predicate DoraAt(types: seq<MessageType>, a: nat, b: nat, c: nat, d: nat) {
    && a < b < c < d < |types|
    && types[a] == Discover && types[b] == Offer && types[c] == Request && types[d] == Ack
  }

  /** Positions of the first `k` required types in order, all below `n`. */
  ghost predicate At(types: seq<MessageType>, n: nat, k: nat, ps: seq<nat>) {
    && |ps| == k <= 4 && n <= |types|
    && (forall i :: 0 <= i < k ==> ps[i] < n && types[ps[i]] == REQUIRED[i])
    && (forall i, j :: 0 <= i < j < k ==> ps[i] < ps[j])
  }

  lemma {:induction false} OccursHasPositions(types: seq<MessageType>, n: nat, k: nat) returns (ps: seq<nat>)
    requires n <= |types| && k <= 4 && Occurs(types, n, k)
    ensures At(types, n, k, ps)
    decreases n
  {
    if k == 0 {
      ps := [];
    } else if Occurs(types, n - 1, k) {
      ps := OccursHasPositions(types, n - 1, k);
    } else {
      ps := OccursHasPositions(types, n - 1, k - 1);
      ps := ps + [n - 1];
    }
  }

  lemma {:induction false} PositionsOccur(types: seq<MessageType>, n: nat, k: nat, ps: seq<nat>)
    requires At(types, n, k, ps)
    ensures Occurs(types, n, k)
    decreases n
  {
    if k > 0 {
      if ps[k - 1] == n - 1 {
        assert At(types, n - 1, k - 1, ps[..k - 1]);
        PositionsOccur(types, n - 1, k - 1, ps[..k - 1]);
      } else {
        PositionsOccur(types, n - 1, k, ps);
      }
    }
  }

  lemma OccursAsPositions(types: seq<MessageType>, n: nat)
    requires n <= |types|
    ensures Occurs(types, n, 4) ==> exists a: nat, b: nat, c: nat, d: nat :: DoraAt(types, a, b, c, d)
    ensures n == |types| && (exists a: nat, b: nat, c: nat, d: nat :: DoraAt(types, a, b, c, d)) ==> Occurs(types, n, 4)
  {
    if Occurs(types, n, 4) {
      var ps := OccursHasPositions(types, n, 4);
      assert DoraAt(types, ps[0], ps[1], ps[2], ps[3]);
    }
    if a: nat, b: nat, c: nat, d: nat :| n == |types| && DoraAt(types, a, b, c, d) {
      PositionsOccur(types, n, 4, [a, b, c, d]);
    }
  }

  // ---- One transaction ---------------------------------------------------

  function Times(capture: seq<DhcpPacket>): (times: seq<real>)
    ensures |times| == |capture| && forall i :: 0 <= i < |times| ==> times[i] == capture[i].time
  {
    seq(|capture|, i requires 0 <= i < |capture| => capture[i].time)
  }

  predicate IsMessage(capture: seq<DhcpPacket>, k: GroupKey, x: nat, t: MessageType) {
    x < |capture| && InTransaction(capture[x], k) && capture[x].messageType == Some(t)
  }

  /** The capture holds the four messages of transaction `k` in time order. */
  ghost predicate DoraInCapture(capture: seq<DhcpPacket>, k: GroupKey, a: nat, b: nat, c: nat, d: nat) {
    && IsMessage(capture, k, a, Discover) && IsMessage(capture, k, b, Offer)
    && IsMessage(capture, k, c, Request) && IsMessage(capture, k, d, Ack)
    && Before(Times(capture), a, b) && Before(Times(capture), b, c) && Before(Times(capture), c, d)
  }

  ghost predicate HasDora(capture: seq<DhcpPacket>, k: GroupKey) {
    exists a: nat, b: nat, c: nat, d: nat :: DoraInCapture(capture, k, a, b, c, d)
  }

  predicate InPhase(capture: seq<DhcpPacket>, k: GroupKey, phase: Phase, x: nat) {
    x < |capture| && InTransaction(capture[x], k) && AsksFor(capture[x], phase)
  }

  /** Some request of transaction `k` in phase `phase` is acknowledged at the same time or later. */
  ghost predicate Extended(capture: seq<DhcpPacket>, k: GroupKey, phase: Phase, r: nat, a: nat) {
    && InPhase(capture, k, phase, r)
    && IsMessage(capture, k, a, Ack) && capture[r].time <= capture[a].time
  }

  ghost predicate HasExtension(capture: seq<DhcpPacket>, k: GroupKey, phase: Phase) {
    exists r: nat, a: nat :: Extended(capture, k, phase, r, a)
  }

  /** The address in the earliest ACK of transaction `k`, if there is an ACK. */
  ghost predicate FirstAckGives(capture: seq<DhcpPacket>, k: GroupKey, ip: Option<string>) {
    match ip
    case None => forall x: nat :: !IsMessage(capture, k, x, Ack)
    case Some(address) => exists x: nat :: IsMessage(capture, k, x, Ack) && capture[x].yiaddr == address
                            && forall y: nat :: IsMessage(capture, k, y, Ack) ==> y == x || Before(Times(capture), x, y)
  }

  /** `ids` are the packets of transaction `k` in time order. */
  ghost predicate IsTransaction(capture: seq<DhcpPacket>, k: GroupKey, ids: seq<nat>) {
    && (forall x: nat :: x in ids <==> x < |capture| && InTransaction(capture[x], k))
    && (forall i :: 0 <= i < |ids| ==> ids[i] < |capture| && InTransaction(capture[ids[i]], k))
    && Ordered(Times(capture), ids)
  }

  ghost predicate TypesOf(capture: seq<DhcpPacket>, ids: seq<nat>, types: seq<MessageType>) {
    && |types| == |ids|
    && forall i :: 0 <= i < |ids| ==> ids[i] < |capture| && capture[ids[i]].messageType == Some(types[i])
  }

  lemma DoraInGroup(capture: seq<DhcpPacket>, k: GroupKey, ids: seq<nat>, types: seq<MessageType>)
    requires IsTransaction(capture, k, ids) && TypesOf(capture, ids, types)
    ensures HasDora(capture, k) <==> exists a: nat, b: nat, c: nat, d: nat :: DoraAt(types, a, b, c, d)
  {
    if a: nat, b: nat, c: nat, d: nat :| DoraAt(types, a, b, c, d) {
      assert DoraInCapture(capture, k, ids[a], ids[b], ids[c], ids[d]);
    }
    if x: nat, y: nat, z: nat, w: nat :| DoraInCapture(capture, k, x, y, z, w) {
      assert x in ids && y in ids && z in ids && w in ids;
      var a: nat :| a < |ids| && ids[a] == x;
      var b: nat :| b < |ids| && ids[b] == y;
      var c: nat :| c < |ids| && ids[c] == z;
      var d: nat :| d < |ids| && ids[d] == w;
      PositionIsTime(Times(capture), ids, a, b);
      PositionIsTime(Times(capture), ids, b, c);
      PositionIsTime(Times(capture), ids, c, d);
      assert DoraAt(types, a, b, c, d);
    }
  }

  /** Find the first request in the given phase, then any ACK not earlier than it. */
  method FindExtension(capture: seq<DhcpPacket>, k: GroupKey, ids: seq<nat>, phase: Phase) returns (found: bool)
    requires IsTransaction(capture, k, ids)
    ensures found <==> HasExtension(capture, k, phase)
  {
    var first := None;
    for n := 0 to |ids|
      invariant first.None? ==> forall i :: 0 <= i < n ==>
        !(capture[ids[i]].messageType == Some(Request) && RequestPhase(capture[ids[i]]) == Some(phase))
      invariant first.Some? ==> first.value in ids && InPhase(capture, k, phase, first.value)
      invariant first.Some? ==> forall x: nat :: InPhase(capture, k, phase, x) ==> capture[first.value].time <= capture[x].time
    {
      var p := capture[ids[n]];
      if first.None? && p.messageType == Some(Request) && RequestPhase(p) == Some(phase) {
        first := Some(ids[n]);
        forall x: nat | InPhase(capture, k, phase, x) ensures capture[ids[n]].time <= capture[x].time {
          assert x in ids;
          var i :| 0 <= i < |ids| && ids[i] == x;
          if n < i { assert Before(Times(capture), ids[n], ids[i]); }
        }
      }
    }
    if first.None? {
      NoExtension(capture, k, ids, phase);
      return false;
    }
    for n := 0 to |ids|
      invariant forall i :: 0 <= i < n ==>
        !(capture[ids[i]].messageType == Some(Ack) && capture[first.value].time <= capture[ids[i]].time)
    {
      if capture[ids[n]].messageType == Some(Ack) && capture[first.value].time <= capture[ids[n]].time {
        assert Extended(capture, k, phase, first.value, ids[n]);
        return true;
      }
    }
    forall r: nat, a: nat ensures !Extended(capture, k, phase, r, a) {
      if IsMessage(capture, k, a, Ack) {
        assert a in ids;
        var i :| 0 <= i < |ids| && ids[i] == a;
      }
    }
    return false;
  }

  lemma NoExtension(capture: seq<DhcpPacket>, k: GroupKey, ids: seq<nat>, phase: Phase)
    requires IsTransaction(capture, k, ids)
    requires forall i :: 0 <= i < |ids| ==>
      !(capture[ids[i]].messageType == Some(Request) && RequestPhase(capture[ids[i]]) == Some(phase))
    ensures !HasExtension(capture, k, phase)
  {
    forall r: nat, a: nat ensures !Extended(capture, k, phase, r, a) {
      if IsMessage(capture, k, r, Request) {
        assert r in ids;
        var i :| 0 <= i < |ids| && ids[i] == r;
      }
    }
  }

  method FirstAck(capture: seq<DhcpPacket>, k: GroupKey, ids: seq<nat>) returns (ip: Option<string>)
    requires IsTransaction(capture, k, ids)
    ensures FirstAckGives(capture, k, ip)
  {
    for n := 0 to |ids|
      invariant forall i :: 0 <= i < n ==> capture[ids[i]].messageType != Some(Ack)
    {
      if capture[ids[n]].messageType == Some(Ack) {
        forall y: nat | IsMessage(capture, k, y, Ack) ensures y == ids[n] || Before(Times(capture), ids[n], y) {
          assert y in ids;
          var i :| 0 <= i < |ids| && ids[i] == y;
          if n < i { assert Before(Times(capture), ids[n], ids[i]); }
        }
        return Some(capture[ids[n]].yiaddr);
      }
    }
    forall x: nat ensures !IsMessage(capture, k, x, Ack) {
      if x < |capture| && InTransaction(capture[x], k) {
        assert x in ids;
        var i :| 0 <= i < |ids| && ids[i] == x;
      }
    }
    return None;
  }

  /** What one entry of the evidence says about its transaction. */
  ghost predicate Reports(capture: seq<DhcpPacket>, k: GroupKey, t: TransactionEvidence)
    requires k.Transaction?
  {
    && t.key == k
    && (t.hasDora <==> k.clientMac.Some? && HasDora(capture, k))
    && (t.isRenewal <==> k.clientMac.Some? && HasExtension(capture, k, Renew))
    && (t.isRebind <==> k.clientMac.Some? && HasExtension(capture, k, Rebind))
    && FirstAckGives(capture, k, t.acknowledgedIp)
    && exists ids: seq<nat> :: IsTransaction(capture, k, ids) && TypesOf(capture, ids, t.messageTypes)
  }

  method AnalyzeTransaction(capture: seq<DhcpPacket>, k: GroupKey, ids: seq<nat>) returns (t: TransactionEvidence)
    requires k.Transaction? && IsTransaction(capture, k, ids)
    ensures Reports(capture, k, t)
  {
    hide HasDora, HasExtension, FirstAckGives, IsTransaction;
    var types := MessageTypes(capture, k, ids);
    var dora := OrderedDora(types);
    DoraInGroup(capture, k, ids, types);
    var renewal := FindExtension(capture, k, ids, Renew);
    var rebind := FindExtension(capture, k, ids, Rebind);
    var ip := FirstAck(capture, k, ids);
    var known := k.clientMac.Some?;
    t := TransactionEvidence(k, types, known && dora, known && renewal, known && rebind, ip);
  }

  method MessageTypes(capture: seq<DhcpPacket>, k: GroupKey, ids: seq<nat>) returns (types: seq<MessageType>)
    requires k.Transaction? && IsTransaction(capture, k, ids)
    ensures TypesOf(capture, ids, types)
  {
    types := [];
    for n := 0 to |ids|
      invariant |types| == n
      invariant forall i :: 0 <= i < n ==> capture[ids[i]].messageType == Some(types[i])
    {
      types := types + [capture[ids[n]].messageType.value];
    }
  }

  // ---- The capture -------------------------------------------------------

  datatype DhcpEvidence = DhcpEvidence(
    transactions: seq<TransactionEvidence>, doraCount: nat, renewalCount: nat, rebindCount: nat,
    hasDora: bool, hasRenewal: bool, hasRebind: bool, hasLeaseAcquired: bool)

  /** What the counts count. */
  datatype Finding = Dora | Renewal | Rebinding

  predicate Shows(t: TransactionEvidence, f: Finding) {
    match f case Dora => t.hasDora case Renewal => t.isRenewal case Rebinding => t.isRebind
  }

  /** sum(...) over the transactions */
  function CountOf(ts: seq<TransactionEvidence>, f: Finding): nat {
    if ts == [] then 0 else CountOf(ts[..|ts| - 1], f) + if Shows(ts[|ts| - 1], f) then 1 else 0
  }

  ghost predicate KnownClient(k: GroupKey) {
    k.Transaction? && k.clientMac.Some?
  }

  ghost predicate LeaseAcquired(capture: seq<DhcpPacket>, k: GroupKey) {
    KnownClient(k) && HasDora(capture, k)
    && exists ip: string :: FirstAckGives(capture, k, Some(ip)) && ip != "0.0.0.0"
  }

  lemma FirstAckIsUnique(capture: seq<DhcpPacket>, k: GroupKey, a: Option<string>, b: Option<string>)
    requires FirstAckGives(capture, k, a) && FirstAckGives(capture, k, b)
    ensures a == b
  {
  }

  /** The capture holds what is looked for in transaction `k`, and its client is known. */
  ghost predicate Found(capture: seq<DhcpPacket>, k: GroupKey, f: Finding) {
    KnownClient(k) &&
    match f
    case Dora => HasDora(capture, k)
    case Renewal => HasExtension(capture, k, Renew)
    case Rebinding => HasExtension(capture, k, Rebind)
  }

  ghost function TransactionsWith(capture: seq<DhcpPacket>, f: Finding): set<GroupKey> {
    set p | p in capture && Found(capture, Transaction(p.xid, p.clientMac), f) :: Transaction(p.xid, p.clientMac)
  }

  ghost predicate InCapture(capture: seq<DhcpPacket>, k: GroupKey) {
    exists p :: p in capture && InTransaction(p, k)
  }

  /** The entries are those of the transactions of the capture, one each. */
  ghost predicate ListsTransactions(capture: seq<DhcpPacket>, ts: seq<TransactionEvidence>) {
    && (forall i :: 0 <= i < |ts| ==> ts[i].key.Transaction? && Reports(capture, ts[i].key, ts[i]))
    && (forall i, j :: 0 <= i < j < |ts| ==> ts[i].key != ts[j].key)
    && (forall k :: InCapture(capture, k) <==> exists i :: 0 <= i < |ts| && ts[i].key == k)
  }

  /** The verdicts about a capture depend on the packets and their time order alone: there is one entry for each
      transaction, and as many complete exchanges, renewals and rebindings are counted as there are transactions of
      known clients that have one. */
  method AnalyzeDhcp(capture: seq<DhcpPacket>) returns (evidence: DhcpEvidence)
    ensures ListsTransactions(capture, evidence.transactions)
    ensures evidence.doraCount == |TransactionsWith(capture, Dora)|
    ensures evidence.renewalCount == |TransactionsWith(capture, Renewal)|
    ensures evidence.rebindCount == |TransactionsWith(capture, Rebinding)|
    ensures evidence.hasDora <==> exists k :: KnownClient(k) && HasDora(capture, k)
    ensures evidence.hasRenewal <==> exists k :: KnownClient(k) && HasExtension(capture, k, Renew)
    ensures evidence.hasRebind <==> exists k :: KnownClient(k) && HasExtension(capture, k, Rebind)
    ensures evidence.hasLeaseAcquired <==> exists k :: LeaseAcquired(capture, k)
  {
    hide HasDora, HasExtension, LeaseAcquired, KnownClient, Found, ListsTransactions, TransactionsWith;
    var ts := ListTransactions(capture);
    var dora, renewal, rebind := CountFindings(ts);
    var lease := AnyLease(ts);
    evidence := DhcpEvidence(ts, dora, renewal, rebind, dora > 0, renewal > 0, rebind > 0, lease);
    CountIsNumber(capture, ts, Dora);
    CountIsNumber(capture, ts, Renewal);
    CountIsNumber(capture, ts, Rebinding);
    LeaseIsListed(capture, ts);
    FoundMeans(capture);
  }

  /** Groups the packets and analyses each group that has a message type. */
  method ListTransactions(capture: seq<DhcpPacket>) returns (ts: seq<TransactionEvidence>)
    ensures ListsTransactions(capture, ts)
  {
    hide IsTransaction, KeyOf, Ordered, Reports, IsGroup, InCapture;
    var times := seq(|capture|, i requires 0 <= i < |capture| => capture[i].time);
    var keys := seq(|capture|, i requires 0 <= i < |capture| => KeyOf(capture[i]));
    var order, groups := GroupBy(keys);
    ts := [];
    for n := 0 to |order|
      invariant forall i :: 0 <= i < |ts| ==> ts[i].key.Transaction? && Reports(capture, ts[i].key, ts[i])
      invariant forall i, j :: 0 <= i < j < |ts| ==> ts[i].key != ts[j].key
      invariant forall i :: 0 <= i < |ts| ==> ts[i].key in order[..n]
      invariant forall i :: 0 <= i < n && order[i].Transaction? ==> exists j :: 0 <= j < |ts| && ts[j].key == order[i]
    {
      var k := order[n];
      assert order[..n + 1] == order[..n] + [k];
      if k == Untyped { continue; }
      assert k in groups && k !in order[..n];
      var sorted := SortGroup(times, keys, k, groups[k]);
      SortedIsTransaction(capture, times, keys, k, sorted);
      var t := AnalyzeTransaction(capture, k, sorted);
      assert t.key == k by { ReportsLease(capture, k, t); }
      ghost var before := ts;
      ts := ts + [t];
      assert forall j :: 0 <= j < |before| ==> ts[j] == before[j];
      assert ts[|before|].key == k;
    }
    assert order[..|order|] == order;
    GroupedIsListed(capture, keys, order, groups, ts);
  }

  method CountFindings(ts: seq<TransactionEvidence>) returns (dora: nat, renewal: nat, rebind: nat)
    ensures dora == CountOf(ts, Dora) && renewal == CountOf(ts, Renewal) && rebind == CountOf(ts, Rebinding)
  {
    dora, renewal, rebind := 0, 0, 0;
    for n := 0 to |ts|
      invariant dora == CountOf(ts[..n], Dora) && renewal == CountOf(ts[..n], Renewal)
      invariant rebind == CountOf(ts[..n], Rebinding)
    {
      assert ts[..n + 1][..n] == ts[..n];
      if ts[n].hasDora { dora := dora + 1; }
      if ts[n].isRenewal { renewal := renewal + 1; }
      if ts[n].isRebind { rebind := rebind + 1; }
    }
    assert ts[..|ts|] == ts;
  }

  predicate GivesLease(t: TransactionEvidence) {
    t.hasDora && t.acknowledgedIp != None && t.acknowledgedIp != Some("0.0.0.0")
  }

  method AnyLease(ts: seq<TransactionEvidence>) returns (lease: bool)
    ensures lease <==> exists i :: 0 <= i < |ts| && GivesLease(ts[i])
  {
    for n := 0 to |ts|
      invariant forall i :: 0 <= i < n ==> !GivesLease(ts[i])
    {
      if GivesLease(ts[n]) { return true; }
    }
    return false;
  }

  // ---- What the entries and counts mean ----------------------------------

  lemma GroupedIsListed(capture: seq<DhcpPacket>, keys: seq<GroupKey>, order: seq<GroupKey>,
                        groups: map<GroupKey, seq<nat>>, ts: seq<TransactionEvidence>)
    requires |keys| == |capture| && forall i :: 0 <= i < |keys| ==> keys[i] == KeyOf(capture[i])
    requires Grouped(keys, |keys|, order, groups)
    requires forall i :: 0 <= i < |ts| ==> ts[i].key.Transaction? && ts[i].key in order
    requires forall i :: 0 <= i < |order| && order[i].Transaction? ==> exists j :: 0 <= j < |ts| && ts[j].key == order[i]
    ensures forall k :: InCapture(capture, k) <==> exists i :: 0 <= i < |ts| && ts[i].key == k
  {
    forall k ensures InCapture(capture, k) <==> exists i :: 0 <= i < |ts| && ts[i].key == k {
      if InCapture(capture, k) {
        var p :| p in capture && InTransaction(p, k);
        TypedPacketIsGrouped(capture, keys, order, groups, p);
      }
      if i :| 0 <= i < |ts| && ts[i].key == k { GroupIsInCapture(capture, keys, order, groups, k); }
    }
  }

  lemma GroupIsInCapture(capture: seq<DhcpPacket>, keys: seq<GroupKey>, order: seq<GroupKey>,
                         groups: map<GroupKey, seq<nat>>, k: GroupKey)
    requires |keys| == |capture| && forall i :: 0 <= i < |keys| ==> keys[i] == KeyOf(capture[i])
    requires Grouped(keys, |keys|, order, groups) && k in order && k.Transaction?
    ensures InCapture(capture, k)
  {
    assert IsGroup(keys, |keys|, k, groups[k]) && groups[k][0] in groups[k];
    assert capture[groups[k][0]] in capture;
  }

  lemma TypedPacketIsGrouped(capture: seq<DhcpPacket>, keys: seq<GroupKey>, order: seq<GroupKey>,
                             groups: map<GroupKey, seq<nat>>, p: DhcpPacket)
    requires |keys| == |capture| && forall i :: 0 <= i < |keys| ==> keys[i] == KeyOf(capture[i])
    requires Grouped(keys, |keys|, order, groups) && p in capture && p.messageType.Some?
    ensures KeyOf(p).Transaction? && exists i :: 0 <= i < |order| && order[i] == KeyOf(p)
  {
    var x :| 0 <= x < |capture| && capture[x] == p;
    assert keys[x] in order;
  }

  function KeysOf(ts: seq<TransactionEvidence>, f: Finding): set<GroupKey> {
    set t | t in ts && Shows(t, f) :: t.key
  }

  lemma KeysOneMore(ts: seq<TransactionEvidence>, t: TransactionEvidence, f: Finding)
    ensures KeysOf(ts + [t], f) == KeysOf(ts, f) + if Shows(t, f) then {t.key} else {}
  {
    hide Shows;
    var before, after := KeysOf(ts, f), KeysOf(ts + [t], f);
    forall k | k in after ensures k in before || (Shows(t, f) && k == t.key) {
      var u :| u in ts + [t] && Shows(u, f) && u.key == k;
    }
    forall k | k in before ensures k in after {
      var u :| u in ts && Shows(u, f) && u.key == k;
      assert u in ts + [t];
    }
    if Shows(t, f) { assert t in ts + [t]; }
  }

  lemma {:induction false} CountIsKeys(ts: seq<TransactionEvidence>, f: Finding)
    requires forall i, j :: 0 <= i < j < |ts| ==> ts[i].key != ts[j].key
    ensures CountOf(ts, f) == |KeysOf(ts, f)|
  {
    hide Shows;
    if ts == [] {
      assert KeysOf(ts, f) == {};
    } else {
      var front, last := ts[..|ts| - 1], ts[|ts| - 1];
      CountIsKeys(front, f);
      KeysOneMore(front, last, f);
      assert ts == front + [last];
      KeyIsNew(front, last.key, f);
    }
    hide KeysOf;
  }

  lemma KeyIsNew(ts: seq<TransactionEvidence>, k: GroupKey, f: Finding)
    requires forall i :: 0 <= i < |ts| ==> ts[i].key != k
    ensures k !in KeysOf(ts, f)
  {
    hide Shows;
  }

  /** What is found in a transaction is made of packets of it. */
  lemma FoundIsInCapture(capture: seq<DhcpPacket>, k: GroupKey, f: Finding)
    requires Found(capture, k, f)
    ensures InCapture(capture, k)
  {
    hide KnownClient;
    if f.Dora? {
      var a: nat, b: nat, c: nat, d: nat :| DoraInCapture(capture, k, a, b, c, d);
      assert capture[a] in capture;
    } else {
      var r: nat, a: nat :| Extended(capture, k, if f.Renewal? then Renew else Rebind, r, a);
      assert capture[r] in capture;
    }
  }

  lemma ReportShows(capture: seq<DhcpPacket>, t: TransactionEvidence, f: Finding)
    requires t.key.Transaction? && Reports(capture, t.key, t)
    ensures Shows(t, f) <==> Found(capture, t.key, f)
  {
  }

  lemma FoundIsListed(capture: seq<DhcpPacket>, ts: seq<TransactionEvidence>, f: Finding, k: GroupKey)
    requires ListsTransactions(capture, ts)
    ensures k in KeysOf(ts, f) <==> Found(capture, k, f)
  {
    hide Found, Reports, Shows, InCapture;
    if k in KeysOf(ts, f) {
      var t :| t in ts && Shows(t, f) && t.key == k;
      ReportShows(capture, t, f);
    }
    if Found(capture, k, f) {
      FoundIsInCapture(capture, k, f);
      var i :| 0 <= i < |ts| && ts[i].key == k;
      ReportShows(capture, ts[i], f);
      assert ts[i] in ts;
    }
  }

  lemma FoundIsCounted(capture: seq<DhcpPacket>, f: Finding, k: GroupKey)
    ensures k in TransactionsWith(capture, f) <==> Found(capture, k, f)
  {
    if Found(capture, k, f) { FoundIsInCapture(capture, k, f); }
    hide Found, KeyOf;
  }

  lemma CountIsNumber(capture: seq<DhcpPacket>, ts: seq<TransactionEvidence>, f: Finding)
    requires ListsTransactions(capture, ts)
    ensures CountOf(ts, f) == |TransactionsWith(capture, f)|
    ensures CountOf(ts, f) > 0 <==> exists k :: Found(capture, k, f)
  {
    CountIsKeys(ts, f);
    hide Found, KeysOf, TransactionsWith, ListsTransactions, CountOf;
    forall k
      ensures k in KeysOf(ts, f) <==> Found(capture, k, f)
      ensures k in TransactionsWith(capture, f) <==> Found(capture, k, f)
    {
      FoundIsListed(capture, ts, f, k);
      FoundIsCounted(capture, f, k);
    }
    assert KeysOf(ts, f) == TransactionsWith(capture, f);
    if k :| Found(capture, k, f) { assert k in KeysOf(ts, f); }
    if KeysOf(ts, f) != {} {
      var k :| k in KeysOf(ts, f);
      assert Found(capture, k, f);
    }
  }

  lemma LeaseIsListed(capture: seq<DhcpPacket>, ts: seq<TransactionEvidence>)
    requires ListsTransactions(capture, ts)
    ensures (exists i :: 0 <= i < |ts| && GivesLease(ts[i])) <==> exists k :: LeaseAcquired(capture, k)
  {
    hide Reports, InCapture, FirstAckGives, HasDora, HasExtension;
    forall i | 0 <= i < |ts| ensures GivesLease(ts[i]) <==> LeaseAcquired(capture, ts[i].key) {
      ReportsLease(capture, ts[i].key, ts[i]);
    }
    if k :| LeaseAcquired(capture, k) {
      assert Found(capture, k, Dora);
      FoundIsInCapture(capture, k, Dora);
    }
    hide LeaseAcquired, GivesLease;
  }

  lemma FoundMeans(capture: seq<DhcpPacket>)
    ensures forall k :: Found(capture, k, Dora) <==> KnownClient(k) && HasDora(capture, k)
    ensures forall k :: Found(capture, k, Renewal) <==> KnownClient(k) && HasExtension(capture, k, Renew)
    ensures forall k :: Found(capture, k, Rebinding) <==> KnownClient(k) && HasExtension(capture, k, Rebind)
  {
    hide KnownClient, HasDora, HasExtension;
  }

  lemma SortedIsTransaction(capture: seq<DhcpPacket>, times: seq<real>, keys: seq<GroupKey>, k: GroupKey,
                            sorted: seq<nat>)
    requires |times| == |keys| == |capture| && k.Transaction?
    requires forall i :: 0 <= i < |keys| ==> keys[i] == KeyOf(capture[i]) && times[i] == capture[i].time
    requires Ordered(times, sorted) && forall x: nat :: x in sorted <==> x < |keys| && keys[x] == k
    ensures IsTransaction(capture, k, sorted)
  {
    forall i, j | 0 <= i < j < |sorted| ensures Before(Times(capture), sorted[i], sorted[j]) {
      assert Before(times, sorted[i], sorted[j]);
    }
    assert forall i :: 0 <= i < |sorted| ==> sorted[i] in sorted;
  }

  lemma ReportsLease(capture: seq<DhcpPacket>, k: GroupKey, t: TransactionEvidence)
    requires k.Transaction? && Reports(capture, k, t)
    ensures t.key == k
    ensures t.hasDora <==> KnownClient(k) && HasDora(capture, k)
    ensures t.isRenewal <==> KnownClient(k) && HasExtension(capture, k, Renew)
    ensures t.isRebind <==> KnownClient(k) && HasExtension(capture, k, Rebind)
    ensures GivesLease(t) <==> LeaseAcquired(capture, k)
  {
    hide HasDora, HasExtension, FirstAckGives;
    forall ip: string | FirstAckGives(capture, k, Some(ip)) ensures t.acknowledgedIp == Some(ip) {
      FirstAckIsUnique(capture, k, t.acknowledgedIp, Some(ip));
    }
    if t.acknowledgedIp.Some? {
      assert FirstAckGives(capture, k, Some(t.acknowledgedIp.value));
    }
  }
}
