/** The four-way handshake search (ProtocolEvidenceService.analyze_eapol).

    EAPOL-Key frames are grouped by the unordered pair of endpoint addresses, each group is sorted by
    time, and each group is searched for messages 1 to 4 of the handshake (section 12.7.6 of
    IEEE 802.11-2016) in the right directions with matching replay counters. The main result: grouping
    loses and invents nothing. A handshake is reported exactly when the capture as a whole, in time
    order, contains one. */
module EapolHandshake {
  import opened Wrappers
  import opened CaptureOrder
  import opened PacketGroups

  /** `keyNumber` is 0 when the message number could not be determined. */
  datatype EapolPacket = EapolPacket(
    time: real, addr1: Option<string>, addr2: Option<string>,
    keyNumber: int, replay: int, descriptor: int, keyType: int)

  datatype Record = Record(
    number: int, sender: Option<string>, receiver: Option<string>,
    replay: int, descriptor: int, keyType: int)

  datatype GroupKey = GroupKey(a: Option<string>, b: Option<string>)

  datatype GroupEvidence = GroupEvidence(
    endpoints: GroupKey, keyNumbers: seq<int>, replayCounters: seq<int>, completed: bool)

  datatype EapolEvidence = EapolEvidence(totalPackets: nat, handshakes: seq<GroupEvidence>, completed: bool)

  // ---- Addresses and group keys ------------------------------------------

  function LowerChar(c: char): char {
    if 'A' <= c <= 'Z' then c - 'A' + 'a' else c
  }

  function Lower(s: string): (r: string)
    ensures |r| == |s|
  {
    seq(|s|, i requires 0 <= i < |s| => LowerChar(s[i]))
  }

  /** The same character, or the two cases of one letter. */
  predicate SameLetter(c: char, d: char) {
    || c == d
    || ('A' <= c <= 'Z' && d as int == c as int + 32)
    || ('A' <= d <= 'Z' && c as int == d as int + 32)
  }

  /** Addresses are compared without regard to case. */
  lemma CaseIsIgnored(s: string, t: string)
    ensures Lower(s) == Lower(t) <==> |s| == |t| && forall i :: 0 <= i < |s| ==> SameLetter(s[i], t[i])
  {
    if |s| == |t| {
      forall i | 0 <= i < |s| ensures Lower(s)[i] == Lower(t)[i] <==> SameLetter(s[i], t[i]) {}
    }
  }

  /** An address as the analyser uses it: lower case, and None when it is missing or empty. */
  function Address(a: Option<string>): (r: Option<string>)
    ensures r == None <==> a == None || a == Some("")
  {
    if a.Some? && a.value != "" then Some(Lower(a.value)) else None
  }

  predicate LexLeq(a: string, b: string) {
    if a == "" then true
    else if b == "" then false
    else a[0] < b[0] || (a[0] == b[0] && LexLeq(a[1..], b[1..]))
  }

  lemma {:induction false} LexTotal(a: string, b: string)
    ensures LexLeq(a, b) || LexLeq(b, a)
    ensures LexLeq(a, b) && LexLeq(b, a) ==> a == b
  {
    if a != "" && b != "" && a[0] == b[0] {
      LexTotal(a[1..], b[1..]);
      assert a == [a[0]] + a[1..] && b == [b[0]] + b[1..];
    }
  }

  /** The sorted pair of the addresses that are present, padded with None. */
  function KeyOf(p: EapolPacket): (k: GroupKey)
    ensures multiset{k.a, k.b} == multiset{Address(p.addr1), Address(p.addr2)}
    ensures k.b.Some? ==> k.a.Some? && LexLeq(k.a.value, k.b.value)
  {
    match (Address(p.addr1), Address(p.addr2))
    case (Some(x), Some(y)) =>
      LexTotal(x, y);
      if LexLeq(x, y) then GroupKey(Some(x), Some(y)) else GroupKey(Some(y), Some(x))
    case (Some(x), None) => GroupKey(Some(x), None)
    case (None, Some(y)) => GroupKey(Some(y), None)
    case (None, None) => GroupKey(None, None)
  }

  function RecordOf(p: EapolPacket): Record {
    Record(p.keyNumber, Address(p.addr2), Address(p.addr1), p.replay, p.descriptor, p.keyType)
  }

  /** Frames share a group exactly where they have the same two endpoints, whichever direction they travel. */
  lemma SameKeyExactly(p: EapolPacket, q: EapolPacket)
    ensures KeyOf(p) == KeyOf(q) <==>
            || (Address(p.addr1) == Address(q.addr1) && Address(p.addr2) == Address(q.addr2))
            || (Address(p.addr1) == Address(q.addr2) && Address(p.addr2) == Address(q.addr1))
  {
    var a, b := Address(p.addr1), Address(p.addr2);
    if a.Some? && b.Some? { LexTotal(a.value, b.value); }
    hide Address, LexLeq;
  }

  // ---- The handshake -----------------------------------------------------

  /** Messages 1 to 4 in the right directions, with M2 repeating M1's replay counter, M3 above it and M4
      repeating M3's. */
  predicate IsHandshake(m1: Record, m2: Record, m3: Record, m4: Record) {
    && m1.sender.Some? && m1.receiver.Some? && m1.sender != m1.receiver
    && m1.number == 1 && m2.number == 2 && m3.number == 3 && m4.number == 4
    && m1.keyType == m2.keyType == m3.keyType == m4.keyType == 1
    && m1.descriptor == m2.descriptor == m3.descriptor == m4.descriptor
    && m2.sender == m1.receiver && m2.receiver == m1.sender
    && m3.sender == m1.sender && m3.receiver == m1.receiver
    && m4.sender == m1.receiver && m4.receiver == m1.sender
    && m2.replay == m1.replay && m3.replay > m1.replay && m4.replay == m3.replay
  }

  /** The same, said of frames: addr2 sends and addr1 receives. */
  predicate IsFourWay(m1: EapolPacket, m2: EapolPacket, m3: EapolPacket, m4: EapolPacket) {
    var ap, client := Address(m1.addr2), Address(m1.addr1);
    && ap.Some? && client.Some? && ap != client
    && m1.keyNumber == 1 && m2.keyNumber == 2 && m3.keyNumber == 3 && m4.keyNumber == 4
    && m1.keyType == 1 && m2.keyType == 1 && m3.keyType == 1 && m4.keyType == 1
    && m2.descriptor == m1.descriptor && m3.descriptor == m1.descriptor && m4.descriptor == m1.descriptor
    && Address(m2.addr2) == client && Address(m2.addr1) == ap
    && Address(m3.addr2) == ap && Address(m3.addr1) == client
    && Address(m4.addr2) == client && Address(m4.addr1) == ap
    && m2.replay == m1.replay && m3.replay > m1.replay && m4.replay == m3.replay
  }

  ghost predicate HandshakeAt(records: seq<Record>, i: nat, j: nat, k: nat, l: nat) {
    i < j < k < l < |records| && IsHandshake(records[i], records[j], records[k], records[l])
  }

  predicate Opens(m1: Record) {
    m1.number == 1 && m1.keyType == 1 && m1.sender.Some? && m1.receiver.Some? && m1.sender != m1.receiver
  }

  predicate Replies(m1: Record, m2: Record) {
    m2.number == 2 && m2.keyType == 1 && m2.sender == m1.receiver && m2.receiver == m1.sender
    && m2.replay == m1.replay && m2.descriptor == m1.descriptor
  }

  predicate Confirms(m1: Record, m3: Record) {
    m3.number == 3 && m3.keyType == 1 && m3.sender == m1.sender && m3.receiver == m1.receiver
    && m3.replay > m1.replay && m3.descriptor == m1.descriptor
  }

  predicate Closes(m1: Record, m3: Record, m4: Record) {
    m4.number == 4 && m4.keyType == 1 && m4.sender == m1.receiver && m4.receiver == m1.sender
    && m4.replay == m3.replay && m4.descriptor == m1.descriptor
  }

  /** The nested search over one group's records. */
  method HandshakeIsComplete(records: seq<Record>) returns (complete: bool)
    ensures complete <==> exists i: nat, j: nat, k: nat, l: nat :: HandshakeAt(records, i, j, k, l)
  {
    for i := 0 to |records|
      invariant forall a: nat, b: nat, c: nat, d: nat :: a < i ==> !HandshakeAt(records, a, b, c, d)
    {
      var first := records[i];
      if !Opens(first) { continue; }
      for j := i + 1 to |records|
        invariant forall b: nat, c: nat, d: nat :: b < j ==> !HandshakeAt(records, i, b, c, d)
      {
        if Replies(first, records[j]) {
          for k := j + 1 to |records|
            invariant forall c: nat, d: nat :: c < k ==> !HandshakeAt(records, i, j, c, d)
          {
            if Confirms(first, records[k]) {
              for l := k + 1 to |records|
                invariant forall d: nat :: d < l ==> !HandshakeAt(records, i, j, k, d)
              {
                if Closes(first, records[k], records[l]) {
                  assert HandshakeAt(records, i, j, k, l);
                  return true;
                }
              }
            }
          }
        }
      }
    }
    return false;
  }

  // ---- The analysis ------------------------------------------------------

  function Times(capture: seq<EapolPacket>): (times: seq<real>)
    ensures |times| == |capture| && forall i :: 0 <= i < |times| ==> times[i] == capture[i].time
  {
    seq(|capture|, i requires 0 <= i < |capture| => capture[i].time)
  }

  /** Four frames of the capture, in time order, make a handshake. */
  ghost predicate CaptureHandshakeAt(capture: seq<EapolPacket>, a: nat, b: nat, c: nat, d: nat) {
    && Before(Times(capture), a, b) && Before(Times(capture), b, c) && Before(Times(capture), c, d)
    && IsFourWay(capture[a], capture[b], capture[c], capture[d])
  }

  function Keys(capture: seq<EapolPacket>): (keys: seq<GroupKey>)
    ensures |keys| == |capture| && forall i :: 0 <= i < |keys| ==> keys[i] == KeyOf(capture[i])
  {
    seq(|capture|, i requires 0 <= i < |capture| => KeyOf(capture[i]))
  }

  /** `records` are the numbered frames among `ids`, in that order; `from` says where each came from. */
  ghost predicate RecordsOf(capture: seq<EapolPacket>, ids: seq<nat>, records: seq<Record>, from: seq<nat>) {
    && |from| == |records|
    && (forall i :: 0 <= i < |ids| ==> ids[i] < |capture|)
    && (forall i :: 0 <= i < |from| ==> from[i] in ids && from[i] < |capture| && records[i] == RecordOf(capture[from[i]]))
    && Ordered(Times(capture), from)
    && (forall x: nat :: x in from <==> x in ids && x < |capture| && capture[x].keyNumber != 0)
  }

  method CollectRecords(capture: seq<EapolPacket>, ids: seq<nat>)
    returns (records: seq<Record>, numbers: seq<int>, replays: seq<int>, ghost from: seq<nat>)
    requires Ordered(Times(capture), ids)
    ensures RecordsOf(capture, ids, records, from)
    ensures |numbers| == |replays| == |records|
    ensures forall i :: 0 <= i < |records| ==> numbers[i] == records[i].number && replays[i] == records[i].replay
  {
    records, numbers, replays, from := [], [], [], [];
    for n := 0 to |ids|
      invariant RecordsOf(capture, ids[..n], records, from)
      invariant |numbers| == |replays| == |records|
      invariant forall i :: 0 <= i < |records| ==> numbers[i] == records[i].number && replays[i] == records[i].replay
    {
      assert ids[..n + 1] == ids[..n] + [ids[n]];
      var p := capture[ids[n]];
      if p.keyNumber == 0 { continue; }
      forall i | 0 <= i < |from| ensures Before(Times(capture), from[i], ids[n]) {
        var j :| 0 <= j < n && ids[..n][j] == from[i];
        assert Before(Times(capture), ids[j], ids[n]);
      }
      records, numbers, replays := records + [RecordOf(p)], numbers + [p.keyNumber], replays + [p.replay];
      from := from + [ids[n]];
    }
    assert ids[..|ids|] == ids;
  }

  ghost predicate HasHandshake(capture: seq<EapolPacket>, k: GroupKey) {
    exists a: nat, b: nat, c: nat, d: nat :: CaptureHandshakeAt(capture, a, b, c, d) && KeyOf(capture[a]) == k
  }

  /** The listed numbers and replay counters are those of the numbered frames of group `k`, in time order. */
  ghost predicate ListsFrames(capture: seq<EapolPacket>, k: GroupKey, e: GroupEvidence) {
    exists from: seq<nat> :: FramesFrom(capture, k, e, from)
  }

  ghost predicate FramesFrom(capture: seq<EapolPacket>, k: GroupKey, e: GroupEvidence, from: seq<nat>) {
    && |from| == |e.keyNumbers| == |e.replayCounters|
    && (forall i :: 0 <= i < |from| ==> from[i] < |capture|)
    && Ordered(Times(capture), from)
    && (forall x: nat :: x in from <==> x < |capture| && KeyOf(capture[x]) == k && capture[x].keyNumber != 0)
    && (forall i :: 0 <= i < |from| ==> e.keyNumbers[i] == capture[from[i]].keyNumber)
    && (forall i :: 0 <= i < |from| ==> e.replayCounters[i] == capture[from[i]].replay)
  }

  lemma GroupFindsHandshake(capture: seq<EapolPacket>, k: GroupKey, ids: seq<nat>, records: seq<Record>, from: seq<nat>,
                            a: nat, b: nat, c: nat, d: nat)
    requires forall x: nat :: x in ids <==> x < |capture| && KeyOf(capture[x]) == k
    requires RecordsOf(capture, ids, records, from)
    requires CaptureHandshakeAt(capture, a, b, c, d) && KeyOf(capture[a]) == k
    ensures exists i: nat, j: nat, l: nat, m: nat :: HandshakeAt(records, i, j, l, m)
  {
    SameKeyExactly(capture[a], capture[b]);
    SameKeyExactly(capture[a], capture[c]);
    SameKeyExactly(capture[a], capture[d]);
    assert a in from && b in from && c in from && d in from;
    var i: nat :| i < |from| && from[i] == a;
    var j: nat :| j < |from| && from[j] == b;
    var l: nat :| l < |from| && from[l] == c;
    var m: nat :| m < |from| && from[m] == d;
    PositionIsTime(Times(capture), from, i, j);
    PositionIsTime(Times(capture), from, j, l);
    PositionIsTime(Times(capture), from, l, m);
    assert HandshakeAt(records, i, j, l, m);
  }

  lemma GroupHandshakeInCapture(capture: seq<EapolPacket>, k: GroupKey, ids: seq<nat>, records: seq<Record>,
                                from: seq<nat>, i: nat, j: nat, l: nat, m: nat)
    requires forall x: nat :: x in ids <==> x < |capture| && KeyOf(capture[x]) == k
    requires RecordsOf(capture, ids, records, from) && HandshakeAt(records, i, j, l, m)
    ensures HasHandshake(capture, k)
  {
    hide KeyOf, Times, Address;
    assert CaptureHandshakeAt(capture, from[i], from[j], from[l], from[m]);
    assert from[i] in ids;
  }

  lemma GroupListsFrames(capture: seq<EapolPacket>, k: GroupKey, ids: seq<nat>, records: seq<Record>, from: seq<nat>,
                         e: GroupEvidence)
    requires forall x: nat :: x in ids <==> x < |capture| && KeyOf(capture[x]) == k
    requires RecordsOf(capture, ids, records, from) && |e.keyNumbers| == |e.replayCounters| == |records|
    requires forall i :: 0 <= i < |records| ==>
               e.keyNumbers[i] == records[i].number && e.replayCounters[i] == records[i].replay
    ensures ListsFrames(capture, k, e)
  {
    hide KeyOf, Times, Ordered;
    assert FramesFrom(capture, k, e, from);
  }

  /** A group is complete exactly when the capture holds a handshake between its two stations. */
  method AnalyzeGroup(capture: seq<EapolPacket>, k: GroupKey, ids: seq<nat>) returns (evidence: GroupEvidence)
    requires Ordered(Times(capture), ids)
    requires forall x: nat :: x in ids <==> x < |capture| && KeyOf(capture[x]) == k
    ensures evidence.endpoints == k
    ensures evidence.completed <==> HasHandshake(capture, k)
    ensures ListsFrames(capture, k, evidence)
  {
    hide Ordered, HandshakeAt, IsHandshake, RecordsOf, FramesFrom, Times, KeyOf;
    var records, numbers, replays, from := CollectRecords(capture, ids);
    var completed := HandshakeIsComplete(records);
    evidence := GroupEvidence(k, numbers, replays, completed);
    GroupListsFrames(capture, k, ids, records, from, evidence);
    if completed {
      ghost var i: nat, j: nat, l: nat, m: nat :| HandshakeAt(records, i, j, l, m);
      GroupHandshakeInCapture(capture, k, ids, records, from, i, j, l, m);
    }
    if HasHandshake(capture, k) {
      ghost var a: nat, b: nat, c: nat, d: nat :| CaptureHandshakeAt(capture, a, b, c, d) && KeyOf(capture[a]) == k;
      GroupFindsHandshake(capture, k, ids, records, from, a, b, c, d);
    }
  }

  ghost predicate InCapture(capture: seq<EapolPacket>, k: GroupKey) {
    exists p :: p in capture && KeyOf(p) == k
  }

  /** One entry for each pair of stations that exchanged a frame, and no other, with that pair's verdict and frames. */
  ghost predicate ListsPairs(capture: seq<EapolPacket>, handshakes: seq<GroupEvidence>) {
    && (forall i :: 0 <= i < |handshakes| ==>
          (handshakes[i].completed <==> HasHandshake(capture, handshakes[i].endpoints))
          && ListsFrames(capture, handshakes[i].endpoints, handshakes[i]))
    && (forall i, j :: 0 <= i < j < |handshakes| ==> handshakes[i].endpoints != handshakes[j].endpoints)
    && (forall k :: InCapture(capture, k) <==> exists i :: 0 <= i < |handshakes| && handshakes[i].endpoints == k)
  }

  /** The analysis of a whole capture: one entry for each pair of stations that exchanged a frame, complete
      exactly when that pair completed a handshake; overall complete exactly when the capture holds one. */
  method AnalyzeEapol(capture: seq<EapolPacket>) returns (evidence: EapolEvidence)
    ensures evidence.completed <==>
      exists a: nat, b: nat, c: nat, d: nat :: CaptureHandshakeAt(capture, a, b, c, d)
    ensures ListsPairs(capture, evidence.handshakes)
    ensures evidence.totalPackets == |capture|
  {
    hide Ordered, HasHandshake, KeyOf, CaptureHandshakeAt, IsGroup, ListsFrames, ListsPairs;
    var times, keys := Times(capture), Keys(capture);
    var order, groups := GroupBy(keys);
    var handshakes: seq<GroupEvidence> := [];
    var completed := false;
    for n := 0 to |order|
      invariant |handshakes| == n
      invariant forall i :: 0 <= i < n ==> handshakes[i].endpoints == order[i]
      invariant forall i :: 0 <= i < n ==> (handshakes[i].completed <==> HasHandshake(capture, order[i]))
      invariant forall i :: 0 <= i < n ==> ListsFrames(capture, order[i], handshakes[i])
      invariant completed <==> exists i :: 0 <= i < n && HasHandshake(capture, order[i])
    {
      assert order[n] in groups;
      var sorted := SortGroup(times, keys, order[n], groups[order[n]]);
      var h := AnalyzeGroup(capture, order[n], sorted);
      handshakes, completed := handshakes + [h], completed || h.completed;
    }
    evidence := EapolEvidence(|capture|, handshakes, completed);
    SomeGroupHasIt(capture, order, groups);
    EntriesAreGroups(capture, order, groups, handshakes);
  }

  lemma EntriesAreGroups(capture: seq<EapolPacket>, order: seq<GroupKey>, groups: map<GroupKey, seq<nat>>,
                         handshakes: seq<GroupEvidence>)
    requires Grouped(Keys(capture), |capture|, order, groups) && |handshakes| == |order|
    requires forall i :: 0 <= i < |order| ==> handshakes[i].endpoints == order[i]
    requires forall i :: 0 <= i < |order| ==>
               (handshakes[i].completed <==> HasHandshake(capture, order[i]))
               && ListsFrames(capture, order[i], handshakes[i])
    ensures ListsPairs(capture, handshakes)
  {
    hide KeyOf, IsGroup, HasHandshake, ListsFrames, InCapture;
    forall k ensures InCapture(capture, k) <==> exists i :: 0 <= i < |handshakes| && handshakes[i].endpoints == k {
      GroupIsInCapture(capture, order, groups, k);
      if k in order { var i :| 0 <= i < |order| && order[i] == k; }
      assert forall i :: 0 <= i < |handshakes| ==> handshakes[i].endpoints in order;
    }
  }

  lemma GroupIsInCapture(capture: seq<EapolPacket>, order: seq<GroupKey>, groups: map<GroupKey, seq<nat>>, k: GroupKey)
    requires Grouped(Keys(capture), |capture|, order, groups)
    ensures k in order <==> InCapture(capture, k)
  {
    hide KeyOf;
    if k in order {
      assert IsGroup(Keys(capture), |capture|, k, groups[k]) && groups[k][0] in groups[k];
      assert capture[groups[k][0]] in capture;
    }
    if InCapture(capture, k) {
      var p :| p in capture && KeyOf(p) == k;
      var x :| 0 <= x < |capture| && capture[x] == p;
      assert Keys(capture)[x] in groups;
    }
  }

  lemma SomeGroupHasIt(capture: seq<EapolPacket>, order: seq<GroupKey>, groups: map<GroupKey, seq<nat>>)
    requires Grouped(Keys(capture), |capture|, order, groups)
    ensures (exists i :: 0 <= i < |order| && HasHandshake(capture, order[i])) <==>
            (exists a: nat, b: nat, c: nat, d: nat :: CaptureHandshakeAt(capture, a, b, c, d))
  {
    hide KeyOf, IsFourWay;
    if a: nat, b: nat, c: nat, d: nat :| CaptureHandshakeAt(capture, a, b, c, d) {
      assert Keys(capture)[a] in order;
      var i :| 0 <= i < |order| && order[i] == Keys(capture)[a];
      assert HasHandshake(capture, order[i]);
    }
  }
}
