/** What it means to pair DNS responses with queries in a capture that is in time order.

    Packets are named by their position. A response may answer any earlier query with the same question
    and the reversed transport flow; the first-in-first-out rule gives it the oldest such query that is
    still unanswered. The main results: the rule determines the pairing, and no one-to-one pairing is
    larger. */
module DnsPairing {
  import opened Wrappers

  datatype Flow = Flow(protocol: string, source: string, sourcePort: int, destination: string, destinationPort: int)

  /** A decoded DNS packet; `name` is the normalised first question name, None when there is none. */
  datatype DnsPacket = DnsPacket(
    time: real, id: int, isResponse: bool, name: Option<string>, qtype: int,
    flow: Option<Flow>, answers: seq<string>)

  datatype Key = Key(id: int, name: string, qtype: int, flow: Flow)

  type Pairing = map<nat, nat>  // response |-> query

  function Reversed(f: Flow): Flow {
    Flow(f.protocol, f.destination, f.destinationPort, f.source, f.sourcePort)
  }

  /** The packet carries a question the caller asked about (any question when `expected` is None). */
  predicate Named(p: DnsPacket, expected: Option<string>) {
    p.name.Some? && (expected.None? || p.name == expected)
  }

  /** The question and the query-direction flow; the correlator queues queries under it. */
  function QuestionKey(p: DnsPacket): Key
    requires p.name.Some? && p.flow.Some?
  {
    Key(p.id, p.name.value, p.qtype, if p.isResponse then Reversed(p.flow.value) else p.flow.value)
  }

  /** Response `r` may answer query `q`: same question, and it travels from where the query went back to where
      the query came from. */
  predicate MayAnswer(r: DnsPacket, q: DnsPacket, expected: Option<string>) {
    && !q.isResponse && r.isResponse
    && q.name.Some? && r.name == q.name && (expected.None? || q.name == expected)
    && r.id == q.id && r.qtype == q.qtype
    && q.flow.Some? && r.flow.Some?
    && r.flow.value.protocol == q.flow.value.protocol
    && r.flow.value.source == q.flow.value.destination
    && r.flow.value.sourcePort == q.flow.value.destinationPort
    && r.flow.value.destination == q.flow.value.source
    && r.flow.value.destinationPort == q.flow.value.sourcePort
  }

  predicate IsQuery(packets: seq<DnsPacket>, expected: Option<string>, q: nat) {
    q < |packets| && Named(packets[q], expected) && packets[q].flow.Some? && !packets[q].isResponse
  }

  predicate IsResponse(packets: seq<DnsPacket>, expected: Option<string>, r: nat) {
    r < |packets| && Named(packets[r], expected) && packets[r].flow.Some? && packets[r].isResponse
  }

  /** In a capture in time order, `r` may answer `q`. */
  predicate Answers(packets: seq<DnsPacket>, expected: Option<string>, r: nat, q: nat) {
    q < r < |packets| && MayAnswer(packets[r], packets[q], expected)
  }

  /** A one-to-one pairing of responses with queries they may answer. */
  ghost predicate IsPairing(packets: seq<DnsPacket>, expected: Option<string>, m: Pairing) {
    && (forall r :: r in m ==> Answers(packets, expected, r, m[r]))
    && (forall r, s :: r in m && s in m && m[r] == m[s] ==> r == s)
  }

  /** Query `q` is still waiting when response `r` arrives. */
  ghost predicate Waiting(packets: seq<DnsPacket>, expected: Option<string>, m: Pairing, r: nat, q: nat) {
    && Answers(packets, expected, r, q)
    && forall s :: s in m && s < r ==> m[s] != q
  }

  /** What the rule says about one response: it takes the oldest waiting query, or none waits. */
  ghost predicate FifoAt(packets: seq<DnsPacket>, expected: Option<string>, m: Pairing, r: nat) {
    if r in m then
      && Waiting(packets, expected, m, r, m[r])
      && forall q :: Waiting(packets, expected, m, r, q) ==> m[r] <= q
    else
      forall q :: !Waiting(packets, expected, m, r, q)
  }

  /** The rule holds for the first `n` packets, and only responses among them are paired. */
  ghost predicate FifoUpTo(packets: seq<DnsPacket>, expected: Option<string>, m: Pairing, n: nat) {
    && (forall r: nat :: r in m ==> r < n && IsResponse(packets, expected, r))
    && (forall r: nat :: r < n && IsResponse(packets, expected, r) ==> FifoAt(packets, expected, m, r))
  }

  ghost predicate IsFifo(packets: seq<DnsPacket>, expected: Option<string>, m: Pairing) {
    FifoUpTo(packets, expected, m, |packets|)
  }

  lemma FifoIsPairing(packets: seq<DnsPacket>, expected: Option<string>, m: Pairing)
    requires IsFifo(packets, expected, m)
    ensures IsPairing(packets, expected, m)
  {
    forall r: nat | r in m ensures Answers(packets, expected, r, m[r]) {
      assert FifoAt(packets, expected, m, r);
    }
    forall r, s | r in m && s in m && r < s ensures m[r] != m[s] {
      assert FifoAt(packets, expected, m, s);
    }
  }

  // ---- Maximality --------------------------------------------------------

  /** Some response with the key of query `q`, later than `q`, found no query waiting. */
  ghost predicate Starved(packets: seq<DnsPacket>, expected: Option<string>, m: Pairing, q: nat) {
    exists u :: u !in m && Answers(packets, expected, u, q)
  }

  lemma UnstarvedStaysUnstarved(packets: seq<DnsPacket>, expected: Option<string>, m: Pairing, r: nat, q: nat)
    requires IsFifo(packets, expected, m)
    requires Answers(packets, expected, r, q) && !Starved(packets, expected, m, q)
    ensures r in m && !Starved(packets, expected, m, m[r])
  {
    assert r in m && FifoAt(packets, expected, m, r);
    FifoIsPairing(packets, expected, m);
    forall u: nat | u !in m ensures !Answers(packets, expected, u, m[r]) {
      if IsResponse(packets, expected, u) {
        if u < r {
          // m[r] was not taken before u arrived, so it would have been waiting for u
          assert FifoAt(packets, expected, m, u) && !Waiting(packets, expected, m, u, m[r]);
        } else {
          assert !Answers(packets, expected, u, q);
        }
      }
    }
  }

  /** The edge of the FIFO pairing that covers the edge (r, n[r]) of another pairing: the edge at the
      same query when a later response to that question starved, the edge at the same response otherwise. */
  ghost function Covering(packets: seq<DnsPacket>, expected: Option<string>, m: Pairing, n: Pairing, r: nat): (s: nat)
    requires IsFifo(packets, expected, m) && IsPairing(packets, expected, n) && r in n
    ensures s in m
    ensures if Starved(packets, expected, m, n[r]) then m[s] == n[r] else s == r && !Starved(packets, expected, m, m[s])
  {
    var q := n[r];
    assert Answers(packets, expected, r, q);
    if Starved(packets, expected, m, q) then
      var u :| u !in m && Answers(packets, expected, u, q);
      assert FifoAt(packets, expected, m, u) && !Waiting(packets, expected, m, u, q);
      var s :| s in m && m[s] == q;
      s
    else
      UnstarvedStaysUnstarved(packets, expected, m, r, q);
      r
  }

  /** An injection of `a` into `b` shows |a| <= |b|. */
  lemma {:induction false} InjectionBoundsSize(a: set<nat>, b: set<nat>, f: map<nat, nat>)
    requires a <= f.Keys
    requires forall x :: x in a ==> f[x] in b
    requires forall x, y :: x in a && y in a && f[x] == f[y] ==> x == y
    ensures |a| <= |b|
  {
    if a != {} {
      var x :| x in a;
      InjectionBoundsSize(a - {x}, b - {f[x]}, f);
    }
  }

  /** No pairing of the capture is larger than a first-in-first-out pairing. */
  lemma FifoIsMaximum(packets: seq<DnsPacket>, expected: Option<string>, m: Pairing, n: Pairing)
    requires IsFifo(packets, expected, m) && IsPairing(packets, expected, n)
    ensures |n| <= |m|
  {
    FifoIsPairing(packets, expected, m);
    var f := map r | r in n :: Covering(packets, expected, m, n, r);
    forall r, s | r in n && s in n && f[r] == f[s] ensures r == s {
      assert m[f[r]] == m[f[s]];
    }
    InjectionBoundsSize(n.Keys, m.Keys, f);
  }

  // ---- Uniqueness and order ----------------------------------------------

  lemma {:induction false} FifoAgree(packets: seq<DnsPacket>, expected: Option<string>, m: Pairing, n: Pairing, k: nat)
    requires IsFifo(packets, expected, m) && IsFifo(packets, expected, n) && k <= |packets|
    ensures forall r :: 0 <= r < k ==> (r in m <==> r in n) && (r in m ==> m[r] == n[r])
  {
    if k > 0 {
      FifoAgree(packets, expected, m, n, k - 1);
      var r := k - 1;
      if IsResponse(packets, expected, r) {
        assert forall q :: Waiting(packets, expected, m, r, q) <==> Waiting(packets, expected, n, r, q);
        assert FifoAt(packets, expected, m, r) && FifoAt(packets, expected, n, r);
      }
    }
  }

  /** The FIFO pairing of a capture is unique: the rule determines which queries are answered, and by what. */
  lemma FifoIsUnique(packets: seq<DnsPacket>, expected: Option<string>, m: Pairing, n: Pairing)
    requires IsFifo(packets, expected, m) && IsFifo(packets, expected, n)
    ensures m == n
  {
    FifoAgree(packets, expected, m, n, |packets|);
    forall r ensures r in m <==> r in n {
      if r in m || r in n { assert r < |packets|; }
    }
  }

  /** Within one question and flow, answers come back in the order the queries went out. */
  lemma FifoKeepsOrder(packets: seq<DnsPacket>, expected: Option<string>, m: Pairing, r: nat, s: nat)
    requires IsFifo(packets, expected, m)
    requires r in m && s in m && r < s < |packets|
    requires packets[r].name.Some? && packets[r].flow.Some? && packets[s].name.Some? && packets[s].flow.Some?
    requires QuestionKey(packets[r]) == QuestionKey(packets[s])
    ensures m[r] < m[s]
  {
    assert FifoAt(packets, expected, m, r) && FifoAt(packets, expected, m, s);
    if m[s] < r {
      assert Waiting(packets, expected, m, r, m[s]);
    }
  }
}

/** The correlator's loop, proved against DnsPairing. */
module DnsCorrelation {
  import opened Wrappers
  import opened CaptureOrder
  import opened DnsPairing

  /** One query and, once a response took it, that response's answers. */
  datatype Transaction = Transaction(
    transactionId: int, queryName: string, queryType: int,
    responseCount: int, answers: seq<string>, correlated: bool, timestamp: real)

  datatype DnsEvidence = DnsEvidence(
    totalPackets: nat, queryCount: nat, responseCount: nat, correlatedCount: nat,
    unmatchedQueryCount: int, unmatchedResponseCount: nat,
    resolvedIps: seq<string>, transactions: seq<Transaction>)

  // ---- What the evidence says about the capture --------------------------

  /** Packets without a usable question are counted only when no particular name is expected. */
  predicate Counted(p: DnsPacket, expected: Option<string>) {
    expected.None? || p.name == expected
  }

  /** How many of the first `n` packets are counted responses (or counted queries). */
  function CountPackets(packets: seq<DnsPacket>, expected: Option<string>, responses: bool, n: nat): nat
    requires n <= |packets|
  {
    if n == 0 then 0
    else CountPackets(packets, expected, responses, n - 1)
         + (if Counted(packets[n - 1], expected) && packets[n - 1].isResponse == responses then 1 else 0)
  }

  predicate IsNamedQuery(packets: seq<DnsPacket>, expected: Option<string>, q: nat) {
    q < |packets| && Named(packets[q], expected) && !packets[q].isResponse
  }

  /** `source` lists the named queries among the first `n` packets, in order. */
  ghost predicate ListsQueries(packets: seq<DnsPacket>, expected: Option<string>, n: nat, source: seq<nat>) {
    && (forall i, j :: 0 <= i < j < |source| ==> source[i] < source[j])
    && (forall x :: x in source <==> 0 <= x < n && IsNamedQuery(packets, expected, x))
  }

  /** The record of query `q` reports exactly what the pairing did with it. */
  ghost predicate Describes(packets: seq<DnsPacket>, m: Pairing, q: nat, t: Transaction) {
    && q < |packets| && packets[q].name.Some?
    && t.transactionId == packets[q].id
    && t.queryName == packets[q].name.value
    && t.queryType == packets[q].qtype
    && t.timestamp == packets[q].time
    && (t.correlated <==> q in m.Values)
    && t.responseCount == (if t.correlated then 1 else 0)
    && (!t.correlated ==> t.answers == [])
    && forall r: nat :: r in m && m[r] == q && r < |packets| ==> t.answers == packets[r].answers
  }

  ghost predicate DescribesAll(packets: seq<DnsPacket>, m: Pairing, source: seq<nat>, ts: seq<Transaction>) {
    && |ts| == |source|
    && forall j :: 0 <= j < |ts| ==> Describes(packets, m, source[j], ts[j])
  }

  function CorrelatedCount(ts: seq<Transaction>): nat {
    if ts == [] then 0
    else CorrelatedCount(ts[..|ts| - 1]) + (if ts[|ts| - 1].correlated then 1 else 0)
  }

  function ResolvedIps(ts: seq<Transaction>): seq<string> {
    if ts == [] then []
    else ResolvedIps(ts[..|ts| - 1]) + (if ts[|ts| - 1].correlated then ts[|ts| - 1].answers else [])
  }

  lemma {:induction false} CorrelatingAddsOne(ts: seq<Transaction>, j: nat, t: Transaction)
    requires j < |ts| && !ts[j].correlated && t.correlated
    ensures CorrelatedCount(ts[j := t]) == CorrelatedCount(ts) + 1
  {
    var last := |ts| - 1;
    if j == last {
      assert ts[j := t][..last] == ts[..last];
    } else {
      assert ts[j := t][..last] == ts[..last][j := t];
      CorrelatingAddsOne(ts[..last], j, t);
    }
  }

  // ---- The loop's invariant ----------------------------------------------

  /** A waiting queue holds unanswered queries of its key, oldest first. */
  ghost predicate QueueOk(packets: seq<DnsPacket>, expected: Option<string>, source: seq<nat>, m: Pairing, k: Key,
                          queue: seq<nat>) {
    && (forall a, b :: 0 <= a < b < |queue| ==> queue[a] < queue[b])
    && forall j :: j in queue ==>
      && j < |source|
      && IsQuery(packets, expected, source[j])
      && QuestionKey(packets[source[j]]) == k
      && source[j] !in m.Values
  }

  /** The queues are in order and every unanswered query with a flow waits in the queue of its key. */
  ghost predicate QueuesOk(packets: seq<DnsPacket>, expected: Option<string>, source: seq<nat>, m: Pairing,
                           pending: map<Key, seq<nat>>) {
    && (forall k :: k in pending ==> QueueOk(packets, expected, source, m, k, pending[k]))
    && forall j :: 0 <= j < |source| && IsQuery(packets, expected, source[j]) && source[j] !in m.Values ==>
      var k := QuestionKey(packets[source[j]]);
      k in pending && j in pending[k]
  }

  /** The correlator's state after the first `n` packets. */
  ghost predicate Progress(
    packets: seq<DnsPacket>, expected: Option<string>, n: nat,
    source: seq<nat>, ts: seq<Transaction>, pending: map<Key, seq<nat>>, m: Pairing)
  {
    && n <= |packets|
    && ListsQueries(packets, expected, n, source)
    && DescribesAll(packets, m, source, ts)
    && (forall r: nat :: r in m ==> m[r] in source)
    && FifoUpTo(packets, expected, m, n)
    && QueuesOk(packets, expected, source, m, pending)
    && CorrelatedCount(ts) == |m|
  }

  lemma NothingSeen(packets: seq<DnsPacket>, expected: Option<string>)
    ensures Progress(packets, expected, 0, [], [], map[], map[])
  {
  }

  lemma AllSeen(packets: seq<DnsPacket>, expected: Option<string>,
                source: seq<nat>, ts: seq<Transaction>, pending: map<Key, seq<nat>>, m: Pairing)
    requires Progress(packets, expected, |packets|, source, ts, pending, m)
    ensures IsFifo(packets, expected, m) && CorrelatedCount(ts) == |m|
    ensures ListsQueries(packets, expected, |packets|, source) && DescribesAll(packets, m, source, ts)
  {
  }

  lemma OtherPacket(packets: seq<DnsPacket>, expected: Option<string>, n: nat,
                    source: seq<nat>, ts: seq<Transaction>, pending: map<Key, seq<nat>>, m: Pairing)
    requires Progress(packets, expected, n, source, ts, pending, m) && n < |packets|
    requires !IsNamedQuery(packets, expected, n) && !IsResponse(packets, expected, n)
    ensures Progress(packets, expected, n + 1, source, ts, pending, m)
  {
    FifoOneMore(packets, expected, m, n);
    hide FifoUpTo, QueuesOk, DescribesAll, CorrelatedCount;
  }

  lemma QueryArrives(packets: seq<DnsPacket>, expected: Option<string>, n: nat,
                     source: seq<nat>, ts: seq<Transaction>, pending: map<Key, seq<nat>>, m: Pairing,
                     t: Transaction, pending': map<Key, seq<nat>>)
    requires Progress(packets, expected, n, source, ts, pending, m) && n < |packets|
    requires IsNamedQuery(packets, expected, n) && Describes(packets, map[], n, t)
    requires if packets[n].flow.None? then pending' == pending
             else
               var k := QuestionKey(packets[n]);
               pending' == pending[k := (if k in pending then pending[k] else []) + [|ts|]]
    ensures Progress(packets, expected, n + 1, source + [n], ts + [t], pending', m)
  {
    hide QueuesOk, DescribesAll, Waiting, FifoAt;
    ListsAfterQuery(packets, expected, n, source);
    assert (ts + [t])[..|ts|] == ts;
    assert n !in m.Values;
    DescribesAfterQuery(packets, m, source, ts, n, t);
    FifoOneMore(packets, expected, m, n);
    QueuesAfterQuery(packets, expected, source, m, pending, pending', n);
  }

  lemma ListsAfterQuery(packets: seq<DnsPacket>, expected: Option<string>, n: nat, source: seq<nat>)
    requires ListsQueries(packets, expected, n, source) && IsNamedQuery(packets, expected, n)
    ensures n !in source && ListsQueries(packets, expected, n + 1, source + [n])
  {
    assert forall i :: 0 <= i < |source| ==> source[i] in source;
  }

  lemma FifoOneMore(packets: seq<DnsPacket>, expected: Option<string>, m: Pairing, n: nat)
    requires FifoUpTo(packets, expected, m, n)
    requires IsResponse(packets, expected, n) ==> FifoAt(packets, expected, m, n)
    ensures FifoUpTo(packets, expected, m, n + 1)
  {
  }

  lemma DescribesAfterQuery(packets: seq<DnsPacket>, m: Pairing, source: seq<nat>, ts: seq<Transaction>, x: nat,
                            t: Transaction)
    requires DescribesAll(packets, m, source, ts)
    requires x !in m.Values && Describes(packets, map[], x, t)
    ensures DescribesAll(packets, m, source + [x], ts + [t])
  {
    assert forall r :: r in m ==> m[r] != x;
    assert Describes(packets, m, x, t);
  }

  lemma QueuesAfterQuery(packets: seq<DnsPacket>, expected: Option<string>, source: seq<nat>, m: Pairing,
                         pending: map<Key, seq<nat>>, pending': map<Key, seq<nat>>, x: nat)
    requires x !in m.Values && IsNamedQuery(packets, expected, x)
    requires QueuesOk(packets, expected, source, m, pending)
    requires if packets[x].flow.None? then pending' == pending
             else
               var k := QuestionKey(packets[x]);
               pending' == pending[k := (if k in pending then pending[k] else []) + [|source|]]
    ensures QueuesOk(packets, expected, source + [x], m, pending')
  {
    forall k | k in pending' ensures QueueOk(packets, expected, source + [x], m, k, pending'[k]) {
      hide QuestionKey, QueueOk;
      var queue := if k in pending then pending[k] else [];
      if k !in pending { EmptyQueueOk(packets, expected, source, m, k); }
      if packets[x].flow.Some? && k == QuestionKey(packets[x]) {
        QueueGrows(packets, expected, source, m, k, queue, x);
      } else {
        QueueStays(packets, expected, source, m, k, queue, x);
      }
    }
  }

  lemma EmptyQueueOk(packets: seq<DnsPacket>, expected: Option<string>, source: seq<nat>, m: Pairing, k: Key)
    ensures QueueOk(packets, expected, source, m, k, [])
  {
  }

  lemma QueueStays(packets: seq<DnsPacket>, expected: Option<string>, source: seq<nat>, m: Pairing, k: Key,
                   queue: seq<nat>, x: nat)
    requires QueueOk(packets, expected, source, m, k, queue)
    ensures QueueOk(packets, expected, source + [x], m, k, queue)
  {
    hide IsQuery, QuestionKey;
    forall j | j in queue ensures j < |source| && (source + [x])[j] == source[j] {
    }
  }

  lemma QueueGrows(packets: seq<DnsPacket>, expected: Option<string>, source: seq<nat>, m: Pairing, k: Key,
                   queue: seq<nat>, x: nat)
    requires QueueOk(packets, expected, source, m, k, queue) && x !in m.Values
    requires IsQuery(packets, expected, x) && QuestionKey(packets[x]) == k
    ensures QueueOk(packets, expected, source + [x], m, k, queue + [|source|])
  {
    QueueStays(packets, expected, source, m, k, queue, x);
    hide QuestionKey;
    assert forall a :: 0 <= a < |queue| ==> queue[a] in queue;
    assert (source + [x])[|source|] == x;
  }

  lemma WaitingMeansQueued(packets: seq<DnsPacket>, expected: Option<string>, n: nat,
                           source: seq<nat>, ts: seq<Transaction>, pending: map<Key, seq<nat>>, m: Pairing, q: nat)
    requires Progress(packets, expected, n, source, ts, pending, m)
    requires IsResponse(packets, expected, n) && Waiting(packets, expected, m, n, q)
    ensures var k := QuestionKey(packets[n]);
            k in pending && exists j :: j in pending[k] && j < |source| && source[j] == q
  {
    assert q in source;
    assert q !in m.Values;
    var j :| 0 <= j < |source| && source[j] == q;
    assert j in pending[QuestionKey(packets[n])];
  }

  lemma ResponseStarves(packets: seq<DnsPacket>, expected: Option<string>, n: nat,
                        source: seq<nat>, ts: seq<Transaction>, pending: map<Key, seq<nat>>, m: Pairing)
    requires Progress(packets, expected, n, source, ts, pending, m)
    requires IsResponse(packets, expected, n)
    requires var k := QuestionKey(packets[n]); k !in pending || pending[k] == []
    ensures Progress(packets, expected, n + 1, source, ts, pending, m)
  {
    NothingWaits(packets, expected, n, source, ts, pending, m);
    FifoOneMore(packets, expected, m, n);
  }

  lemma NothingWaits(packets: seq<DnsPacket>, expected: Option<string>, n: nat,
                     source: seq<nat>, ts: seq<Transaction>, pending: map<Key, seq<nat>>, m: Pairing)
    requires Progress(packets, expected, n, source, ts, pending, m)
    requires IsResponse(packets, expected, n)
    requires var k := QuestionKey(packets[n]); k !in pending || pending[k] == []
    ensures FifoAt(packets, expected, m, n)
  {
    forall q: nat ensures !Waiting(packets, expected, m, n, q) {
      if Waiting(packets, expected, m, n, q) {
        WaitingMeansQueued(packets, expected, n, source, ts, pending, m, q);
      }
    }
  }

  /** The oldest query in the queue is the oldest one waiting. */
  lemma HeadIsOldest(packets: seq<DnsPacket>, expected: Option<string>, n: nat,
                     source: seq<nat>, ts: seq<Transaction>, pending: map<Key, seq<nat>>, m: Pairing)
    requires Progress(packets, expected, n, source, ts, pending, m)
    requires IsResponse(packets, expected, n)
    requires QuestionKey(packets[n]) in pending && pending[QuestionKey(packets[n])] != []
    ensures var j := pending[QuestionKey(packets[n])][0];
            j < |ts| && j < |source| && !ts[j].correlated && source[j] !in m.Values
            && FifoUpTo(packets, expected, m[n := source[j]], n + 1)
  {
    var k := QuestionKey(packets[n]);
    var queue := pending[k];
    var j := queue[0];
    assert QueueOk(packets, expected, source, m, k, queue) && j in queue;
    var q := source[j];
    assert Describes(packets, m, q, ts[j]);
    assert q in source;
    forall p: nat | Waiting(packets, expected, m, n, p) ensures q <= p {
      WaitingMeansQueued(packets, expected, n, source, ts, pending, m, p);
      var i :| i in queue && i < |source| && source[i] == p;
      assert j <= i;
    }
    FifoExtends(packets, expected, m, n, q);
  }

  lemma FifoExtends(packets: seq<DnsPacket>, expected: Option<string>, m: Pairing, n: nat, q: nat)
    requires FifoUpTo(packets, expected, m, n) && IsResponse(packets, expected, n)
    requires Answers(packets, expected, n, q) && q !in m.Values
    requires forall p: nat :: Waiting(packets, expected, m, n, p) ==> q <= p
    ensures FifoUpTo(packets, expected, m[n := q], n + 1)
  {
    var m' := m[n := q];
    forall r: nat | r <= n && IsResponse(packets, expected, r) ensures FifoAt(packets, expected, m', r) {
      assert forall s: nat :: s in m' && s < r ==> s in m && m'[s] == m[s];
      assert forall s: nat :: s in m ==> s in m' && m'[s] == m[s];
      assert forall p: nat :: Waiting(packets, expected, m, r, p) <==> Waiting(packets, expected, m', r, p);
      if r < n { assert FifoAt(packets, expected, m, r); }
    }
  }

  lemma ResponseTakes(packets: seq<DnsPacket>, expected: Option<string>, n: nat,
                      source: seq<nat>, ts: seq<Transaction>, pending: map<Key, seq<nat>>, m: Pairing)
    requires Progress(packets, expected, n, source, ts, pending, m)
    requires IsResponse(packets, expected, n)
    requires QuestionKey(packets[n]) in pending && pending[QuestionKey(packets[n])] != []
    ensures var k := QuestionKey(packets[n]); var j := pending[k][0];
            && j < |ts| && j < |source| && n !in m
            && Progress(packets, expected, n + 1, source,
                        ts[j := ts[j].(responseCount := 1, answers := packets[n].answers, correlated := true)],
                        pending[k := pending[k][1..]], m[n := source[j]])
  {
    hide QueuesOk, DescribesAll, Waiting, FifoAt;
    HeadIsOldest(packets, expected, n, source, ts, pending, m);
    var k := QuestionKey(packets[n]);
    var j := pending[k][0];
    CorrelatingAddsOne(ts, j, ts[j].(responseCount := 1, answers := packets[n].answers, correlated := true));
    assert n !in m;
    TakeAddsOneValue(m, n, source[j]);
    DescribesAfterTake(packets, m, source, ts, n, j);
    QueuesAfterTake(packets, expected, source, m, m[n := source[j]], pending, k);
  }

  lemma TakeAddsOneValue(m: Pairing, r: nat, q: nat)
    requires r !in m
    ensures m[r := q].Values == m.Values + {q}
    ensures |m[r := q]| == |m| + 1
  {
    var m' := m[r := q];
    assert forall s :: s in m ==> m'[s] == m[s];
    assert m'[r] == q;
  }

  lemma DescribesAfterTake(packets: seq<DnsPacket>, m: Pairing, source: seq<nat>, ts: seq<Transaction>, x: nat, j: nat)
    requires DescribesAll(packets, m, source, ts)
    requires forall i, j :: 0 <= i < j < |source| ==> source[i] < source[j]
    requires j < |ts| && x < |packets| && x !in m && source[j] !in m.Values
    ensures DescribesAll(packets, m[x := source[j]], source,
                         ts[j := ts[j].(responseCount := 1, answers := packets[x].answers, correlated := true)])
  {
    var q := source[j];
    TakeAddsOneValue(m, x, q);
    var ts' := ts[j := ts[j].(responseCount := 1, answers := packets[x].answers, correlated := true)];
    forall i | 0 <= i < |ts'| ensures Describes(packets, m[x := q], source[i], ts'[i]) {
      assert Describes(packets, m, source[i], ts[i]);
      assert i < j ==> source[i] < source[j];
      assert j < i ==> source[j] < source[i];
    }
  }

  /** The head of its queue leaves: no queue has it any more. */
  lemma QueueAfterTake(packets: seq<DnsPacket>, expected: Option<string>, source: seq<nat>, m: Pairing, m': Pairing,
                       pending: map<Key, seq<nat>>, k: Key, l: Key)
    requires forall i, j :: 0 <= i < j < |source| ==> source[i] < source[j]
    requires k in pending && pending[k] != [] && l in pending
    requires QueueOk(packets, expected, source, m, k, pending[k]) && QueueOk(packets, expected, source, m, l, pending[l])
    requires pending[k][0] < |source| && m'.Values == m.Values + {source[pending[k][0]]}
    ensures QueueOk(packets, expected, source, m', l, if l == k then pending[k][1..] else pending[l])
  {
    hide IsQuery, QuestionKey;
    var queue := pending[k];
    var j := queue[0];
    assert j in queue;
    var rest := if l == k then queue[1..] else pending[l];
    forall i | i in rest ensures i in pending[l] && i < |source| && source[i] != source[j] {
      if l == k {
        var a :| 0 <= a < |queue[1..]| && queue[1..][a] == i;
        assert queue[a + 1] == i && j < i;
      }
      assert i in pending[l];
      assert i < j ==> source[i] < source[j];
      assert j < i ==> source[j] < source[i];
    }
  }

  lemma QueuesAfterTake(packets: seq<DnsPacket>, expected: Option<string>, source: seq<nat>, m: Pairing, m': Pairing,
                        pending: map<Key, seq<nat>>, k: Key)
    requires forall i, j :: 0 <= i < j < |source| ==> source[i] < source[j]
    requires QueuesOk(packets, expected, source, m, pending)
    requires k in pending && pending[k] != [] && pending[k][0] < |source|
    requires m'.Values == m.Values + {source[pending[k][0]]}
    ensures QueuesOk(packets, expected, source, m', pending[k := pending[k][1..]])
  {
    hide QueueOk, QuestionKey;
    var queue, pending' := pending[k], pending[k := pending[k][1..]];
    forall l | l in pending' ensures QueueOk(packets, expected, source, m', l, pending'[l]) {
      QueueAfterTake(packets, expected, source, m, m', pending, k, l);
    }
    forall i | 0 <= i < |source| && IsQuery(packets, expected, source[i]) && source[i] !in m'.Values
      ensures var l := QuestionKey(packets[source[i]]); l in pending' && i in pending'[l]
    {
      var l := QuestionKey(packets[source[i]]);
      assert source[i] !in m.Values && i in pending[l] && i != queue[0];
      if l == k {
        var a :| 0 <= a < |queue| && queue[a] == i;
        assert queue[1..][a - 1] == i;
      }
    }
  }

  ghost predicate TimeOrdered(packets: seq<DnsPacket>) {
    forall i, j :: 0 <= i < j < |packets| ==> packets[i].time <= packets[j].time
  }

  /** In time order nothing queued is later than the packet at hand, so no queued query is ever dropped. */
  lemma QueueIsNotLater(packets: seq<DnsPacket>, expected: Option<string>, n: nat,
                        source: seq<nat>, ts: seq<Transaction>, pending: map<Key, seq<nat>>, m: Pairing, k: Key)
    requires Progress(packets, expected, n, source, ts, pending, m) && n < |packets| && TimeOrdered(packets)
    requires k in pending
    ensures forall a :: 0 <= a < |pending[k]| ==> pending[k][a] < |ts| && ts[pending[k][a]].timestamp <= packets[n].time
  {
    assert QueueOk(packets, expected, source, m, k, pending[k]);
    forall a | 0 <= a < |pending[k]| ensures pending[k][a] < |ts| && ts[pending[k][a]].timestamp <= packets[n].time {
      var j := pending[k][a];
      assert j in pending[k];
      assert source[j] in source && Describes(packets, m, source[j], ts[j]);
    }
  }

  // ---- The correlator ----------------------------------------------------

  /** Position `k` of the queue is the first that is not later than `timestamp`. */
  ghost predicate TakesAt(queue: seq<nat>, ts: seq<Transaction>, timestamp: real, k: nat, taken: nat, rest: seq<nat>)
    requires k < |queue| && forall j :: 0 <= j < |queue| ==> queue[j] < |ts|
  {
    && queue[k] == taken && rest == queue[k + 1..]
    && ts[queue[k]].timestamp <= timestamp
    && forall i :: 0 <= i < k ==> timestamp < ts[queue[i]].timestamp
  }

  /** Take the oldest queued query that is not later than the response, dropping any that are. */
  method PopEligible(queue: seq<nat>, ts: seq<Transaction>, timestamp: real) returns (matched: Option<nat>,
                     rest: seq<nat>)
    requires forall j :: 0 <= j < |queue| ==> queue[j] < |ts|
    ensures matched.None? ==> rest == [] && forall j :: 0 <= j < |queue| ==> timestamp < ts[queue[j]].timestamp
    ensures matched.Some? ==> exists k :: 0 <= k < |queue| && TakesAt(queue, ts, timestamp, k, matched.value, rest)
  {
    rest := queue;
    ghost var k := 0;
    while rest != []
      invariant 0 <= k <= |queue| && rest == queue[k..]
      invariant forall i :: 0 <= i < k ==> timestamp < ts[queue[i]].timestamp
    {
      var candidate := rest[0];
      rest := rest[1..];
      if ts[candidate].timestamp <= timestamp {
        assert TakesAt(queue, ts, timestamp, k, candidate, rest);
        return Some(candidate), rest;
      }
      k := k + 1;
    }
    return None, [];
  }

  /** Correlate packets that are already in time order. */
  method CorrelateOrdered(packets: seq<DnsPacket>, expected: Option<string>)
    returns (evidence: DnsEvidence, ghost pairing: Pairing, ghost source: seq<nat>)
    requires TimeOrdered(packets)
    ensures IsFifo(packets, expected, pairing) && evidence.correlatedCount == |pairing|
    ensures ListsQueries(packets, expected, |packets|, source)
    ensures DescribesAll(packets, pairing, source, evidence.transactions)
    ensures evidence.totalPackets == |packets|
    ensures evidence.queryCount == CountPackets(packets, expected, false, |packets|)
    ensures evidence.responseCount == CountPackets(packets, expected, true, |packets|)
    ensures evidence.queryCount == evidence.correlatedCount + evidence.unmatchedQueryCount
    ensures evidence.responseCount == evidence.correlatedCount + evidence.unmatchedResponseCount
    ensures evidence.resolvedIps == ResolvedIps(evidence.transactions)
  {
    hide Progress, IsFifo, ListsQueries, DescribesAll, TimeOrdered, ResolvedIps, CorrelatedCount;
    var pending: map<Key, seq<nat>> := map[];
    var ts: seq<Transaction> := [];
    NothingSeen(packets, expected);
    var queryCount: nat, responseCount: nat, unmatched: nat := 0, 0, 0;
    pairing, source := map[], [];
    for i := 0 to |packets|
      invariant Progress(packets, expected, i, source, ts, pending, pairing)
      invariant queryCount == CountPackets(packets, expected, false, i)
      invariant responseCount == CountPackets(packets, expected, true, i)
      invariant responseCount == |pairing| + unmatched
    {
      var p := packets[i];
      if p.name.None? {
        if expected.None? {
          if !p.isResponse {
            queryCount := queryCount + 1;
          } else {
            responseCount, unmatched := responseCount + 1, unmatched + 1;
          }
        }
        OtherPacket(packets, expected, i, source, ts, pending, pairing);
      } else if expected.Some? && p.name != expected {
        OtherPacket(packets, expected, i, source, ts, pending, pairing);
      } else if !p.isResponse {
        queryCount := queryCount + 1;
        ts, pending := RecordQuery(packets, expected, i, source, ts, pending, pairing);
        source := source + [i];
      } else {
        responseCount := responseCount + 1;
        if p.flow.None? {
          unmatched := unmatched + 1;
          OtherPacket(packets, expected, i, source, ts, pending, pairing);
        } else {
          var matched;
          matched, ts, pending, pairing := TakeOldest(packets, expected, i, source, ts, pending, pairing);
          if !matched { unmatched := unmatched + 1; }
        }
      }
    }
    AllSeen(packets, expected, source, ts, pending, pairing);
    var correlated, resolved := Summarise(ts);
    evidence := DnsEvidence(|packets|, queryCount, responseCount, correlated, queryCount - correlated, unmatched, resolved, ts);
  }

  /** A named query arrives: it gets a record, and waits for its response if its flow is known. */
  method RecordQuery(packets: seq<DnsPacket>, expected: Option<string>, n: nat,
                     ghost source: seq<nat>, ts: seq<Transaction>, pending: map<Key, seq<nat>>, ghost m: Pairing)
    returns (ts': seq<Transaction>, pending': map<Key, seq<nat>>)
    requires Progress(packets, expected, n, source, ts, pending, m) && IsNamedQuery(packets, expected, n)
    ensures Progress(packets, expected, n + 1, source + [n], ts', pending', m)
  {
    hide Progress;
    var p := packets[n];
    var t := Transaction(p.id, p.name.value, p.qtype, 0, [], false, p.time);
    ts', pending' := ts + [t], pending;
    if p.flow.Some? {
      var key := QuestionKey(p);
      pending' := pending[key := (if key in pending then pending[key] else []) + [|ts|]];
    }
    QueryArrives(packets, expected, n, source, ts, pending, m, t, pending');
  }

  /** A response with a usable question and flow arrives. */
  method TakeOldest(packets: seq<DnsPacket>, expected: Option<string>, n: nat,
                    ghost source: seq<nat>, ts: seq<Transaction>, pending: map<Key, seq<nat>>, ghost m: Pairing)
    returns (matched: bool, ts': seq<Transaction>, pending': map<Key, seq<nat>>, ghost m': Pairing)
    requires Progress(packets, expected, n, source, ts, pending, m)
    requires IsResponse(packets, expected, n) && TimeOrdered(packets)
    ensures Progress(packets, expected, n + 1, source, ts', pending', m')
    ensures |m'| == |m| + (if matched then 1 else 0)
  {
    hide Progress;
    var reverseKey := QuestionKey(packets[n]);
    if reverseKey in pending && pending[reverseKey] != [] {
      QueueIsNotLater(packets, expected, n, source, ts, pending, m, reverseKey);
      var queue := pending[reverseKey];
      var head, rest := PopEligible(queue, ts, packets[n].time);
      ResponseTakes(packets, expected, n, source, ts, pending, m);
      TakeAddsOneValue(m, n, source[head.value]);
      m' := m[n := source[head.value]];
      ts' := ts[head.value := ts[head.value].(responseCount := 1, answers := packets[n].answers, correlated := true)];
      pending' := pending[reverseKey := rest];
      matched := true;
    } else {
      ResponseStarves(packets, expected, n, source, ts, pending, m);
      matched, ts', pending', m' := false, ts, pending, m;
    }
  }

  method Summarise(ts: seq<Transaction>) returns (correlated: nat, resolved: seq<string>)
    ensures correlated == CorrelatedCount(ts) && resolved == ResolvedIps(ts)
  {
    correlated, resolved := 0, [];
    for i := 0 to |ts|
      invariant correlated == CorrelatedCount(ts[..i]) && resolved == ResolvedIps(ts[..i])
    {
      assert ts[..i + 1][..i] == ts[..i];
      if ts[i].correlated {
        correlated, resolved := correlated + 1, resolved + ts[i].answers;
      }
    }
    assert ts[..|ts|] == ts;
  }

  // ---- From the time order back to the capture ---------------------------

  function Times(capture: seq<DnsPacket>): (times: seq<real>)
    ensures |times| == |capture| && forall i :: 0 <= i < |times| ==> times[i] == capture[i].time
  {
    seq(|capture|, i requires 0 <= i < |capture| => capture[i].time)
  }

  /** `order` lists every packet of the capture once, in time order. */
  ghost predicate IsTimeOrder(capture: seq<DnsPacket>, order: seq<nat>) {
    && |order| == |capture|
    && (forall x: nat :: x in order <==> x < |capture|)
    && Ordered(Times(capture), order)
  }

  function Arrange(capture: seq<DnsPacket>, order: seq<nat>): (packets: seq<DnsPacket>)
    requires forall i :: 0 <= i < |order| ==> order[i] < |capture|
    ensures |packets| == |order|
    ensures forall i :: 0 <= i < |order| ==> packets[i] == capture[order[i]]
  {
    seq(|order|, i requires 0 <= i < |order| => capture[order[i]])
  }

  method SortCapture(capture: seq<DnsPacket>) returns (order: seq<nat>)
    ensures IsTimeOrder(capture, order) && TimeOrdered(Arrange(capture, order))
  {
    hide SortByTime, Positions;
    order := SortByTime(Times(capture), Positions(|capture|));
    assert forall i :: 0 <= i < |order| ==> order[i] in order;
  }

  /** A one-to-one pairing stated on the capture itself: a query comes before its response in time order. */
  ghost predicate IsCapturePairing(capture: seq<DnsPacket>, expected: Option<string>, m: Pairing) {
    && (forall r: nat :: r in m ==>
         Before(Times(capture), m[r], r) && MayAnswer(capture[r], capture[m[r]], expected))
    && (forall r, s :: r in m && s in m && m[r] == m[s] ==> r == s)
  }

  ghost function Place(order: seq<nat>, x: nat): (i: nat)
    requires x in order
    ensures i < |order| && order[i] == x
  {
    var i :| 0 <= i < |order| && order[i] == x;
    i
  }

  ghost function IntoOrder(order: seq<nat>, n: Pairing): Pairing {
    map i: nat | i < |order| && order[i] in n && n[order[i]] in order :: Place(order, n[order[i]])
  }

  lemma IntoOrderAnswers(capture: seq<DnsPacket>, expected: Option<string>, order: seq<nat>, n: Pairing, i: nat)
    requires IsTimeOrder(capture, order) && IsCapturePairing(capture, expected, n) && i in IntoOrder(order, n)
    ensures Answers(Arrange(capture, order), expected, i, IntoOrder(order, n)[i])
  {
    hide MayAnswer;
    PositionIsTime(Times(capture), order, IntoOrder(order, n)[i], i);
  }

  /** Every capture pairing has a counterpart in the time order, equally large (IntoOrderSize). */
  lemma CapturePairingInOrder(capture: seq<DnsPacket>, expected: Option<string>, order: seq<nat>, n: Pairing)
    requires IsTimeOrder(capture, order) && IsCapturePairing(capture, expected, n)
    ensures IsPairing(Arrange(capture, order), expected, IntoOrder(order, n))
  {
    hide Answers, Arrange, IntoOrder, IsCapturePairing;
    var n' := IntoOrder(order, n);
    forall i | i in n' ensures Answers(Arrange(capture, order), expected, i, n'[i]) {
      IntoOrderAnswers(capture, expected, order, n, i);
    }
    forall i, j | i in n' && j in n' && n'[i] == n'[j] ensures i == j {
      IntoOrderInjective(capture, expected, order, n, i, j);
    }
  }

  lemma IntoOrderInjective(capture: seq<DnsPacket>, expected: Option<string>, order: seq<nat>, n: Pairing, i: nat,
                           j: nat)
    requires IsTimeOrder(capture, order) && IsCapturePairing(capture, expected, n)
    requires i in IntoOrder(order, n) && j in IntoOrder(order, n) && IntoOrder(order, n)[i] == IntoOrder(order, n)[j]
    ensures i == j
  {
    hide MayAnswer;
    PositionIsTime(Times(capture), order, i, j);
  }

  lemma PairIsOrdered(capture: seq<DnsPacket>, expected: Option<string>, order: seq<nat>, n: Pairing, r: nat)
    requires IsTimeOrder(capture, order) && IsCapturePairing(capture, expected, n) && r in n
    ensures r in order && Place(order, r) in IntoOrder(order, n)
  {
    hide MayAnswer;
    assert Before(Times(capture), n[r], r);
  }

  lemma IntoOrderSize(capture: seq<DnsPacket>, expected: Option<string>, order: seq<nat>, n: Pairing)
    requires IsTimeOrder(capture, order) && IsCapturePairing(capture, expected, n)
    ensures |n| <= |IntoOrder(order, n)|
  {
    var f := map r | r in n && r in order :: Place(order, r);
    forall r | r in n ensures r in f && f[r] in IntoOrder(order, n) {
      PairIsOrdered(capture, expected, order, n, r);
    }
    hide IntoOrder, IsTimeOrder, IsCapturePairing;
    InjectionBoundsSize(n.Keys, IntoOrder(order, n).Keys, f);
  }

  ghost function OutOfOrder(order: seq<nat>, m: Pairing): Pairing {
    map x: nat | x in order && Place(order, x) in m && m[Place(order, x)] < |order| :: order[m[Place(order, x)]]
  }

  lemma OutOfOrderAnswers(capture: seq<DnsPacket>, expected: Option<string>, order: seq<nat>, m: Pairing, x: nat)
    requires IsTimeOrder(capture, order) && IsPairing(Arrange(capture, order), expected, m) && x in OutOfOrder(order, m)
    ensures Before(Times(capture), OutOfOrder(order, m)[x], x)
    ensures MayAnswer(capture[x], capture[OutOfOrder(order, m)[x]], expected)
  {
    hide MayAnswer;
    var i := Place(order, x);
    assert Answers(Arrange(capture, order), expected, i, m[i]);
    PositionIsTime(Times(capture), order, m[i], i);
  }

  /** And the other way round. */
  lemma OrderedPairingInCapture(capture: seq<DnsPacket>, expected: Option<string>, order: seq<nat>, m: Pairing)
    requires IsTimeOrder(capture, order) && IsPairing(Arrange(capture, order), expected, m)
    ensures IsCapturePairing(capture, expected, OutOfOrder(order, m))
  {
    hide Arrange, OutOfOrder, IsPairing, MayAnswer;
    var m' := OutOfOrder(order, m);
    forall x: nat | x in m' ensures Before(Times(capture), m'[x], x) && MayAnswer(capture[x], capture[m'[x]], expected) {
      OutOfOrderAnswers(capture, expected, order, m, x);
    }
    forall x, y | x in m' && y in m' && m'[x] == m'[y] ensures x == y {
      OutOfOrderInjective(capture, expected, order, m, x, y);
    }
  }

  lemma OutOfOrderInjective(capture: seq<DnsPacket>, expected: Option<string>, order: seq<nat>, m: Pairing, x: nat,
                            y: nat)
    requires IsTimeOrder(capture, order) && IsPairing(Arrange(capture, order), expected, m)
    requires x in OutOfOrder(order, m) && y in OutOfOrder(order, m) && OutOfOrder(order, m)[x] == OutOfOrder(order, m)[y]
    ensures x == y
  {
    hide MayAnswer;
    PositionIsTime(Times(capture), order, m[Place(order, x)], m[Place(order, y)]);
  }

  lemma OutOfOrderSize(capture: seq<DnsPacket>, expected: Option<string>, order: seq<nat>, m: Pairing)
    requires IsTimeOrder(capture, order) && IsPairing(Arrange(capture, order), expected, m)
    ensures |m| <= |OutOfOrder(order, m)|
  {
    hide MayAnswer;
    var m' := OutOfOrder(order, m);
    var f := map i | i in m && i < |order| :: order[i];
    forall i | i in m ensures i in f && f[i] in m' {
      assert Answers(Arrange(capture, order), expected, i, m[i]);
      PositionIsTime(Times(capture), order, i, Place(order, order[i]));
    }
    forall i, j | i in m && j in m && f[i] == f[j] ensures i == j { PositionIsTime(Times(capture), order, i, j); }
    InjectionBoundsSize(m.Keys, m'.Keys, f);
  }

  /** No pairing of the capture is larger than the first-in-first-out pairing of its time order, which is
      itself a pairing of the capture. */
  lemma FifoIsCaptureMaximum(capture: seq<DnsPacket>, expected: Option<string>, order: seq<nat>, fifo: Pairing)
    requires IsTimeOrder(capture, order) && IsFifo(Arrange(capture, order), expected, fifo)
    ensures exists m: Pairing :: IsCapturePairing(capture, expected, m) && |m| == |fifo|
    ensures forall n: Pairing :: IsCapturePairing(capture, expected, n) ==> |n| <= |fifo|
  {
    FifoIsPairing(Arrange(capture, order), expected, fifo);
    forall n: Pairing | IsCapturePairing(capture, expected, n) ensures |n| <= |fifo| {
      CapturePairingInOrder(capture, expected, order, n);
      IntoOrderSize(capture, expected, order, n);
      FifoIsMaximum(Arrange(capture, order), expected, fifo, IntoOrder(order, n));
    }
    OrderedPairingInCapture(capture, expected, order, fifo);
    OutOfOrderSize(capture, expected, order, fifo);
    assert |OutOfOrder(order, fifo)| == |fifo|;
  }

  /** The analysis of a capture: as many transactions are correlated as any one-to-one pairing could
      correlate, the records are those of the first-in-first-out pairing, and every counted packet is
      either correlated or reported as unmatched. */
  method AnalyzeDns(capture: seq<DnsPacket>, expected: Option<string>)
    returns (evidence: DnsEvidence, ghost order: seq<nat>, ghost fifo: Pairing, ghost source: seq<nat>)
    ensures exists m: Pairing :: IsCapturePairing(capture, expected, m) && |m| == evidence.correlatedCount
    ensures forall n: Pairing :: IsCapturePairing(capture, expected, n) ==> |n| <= evidence.correlatedCount
    ensures IsTimeOrder(capture, order)
    ensures IsFifo(Arrange(capture, order), expected, fifo) && |fifo| == evidence.correlatedCount
    ensures ListsQueries(Arrange(capture, order), expected, |capture|, source)
    ensures DescribesAll(Arrange(capture, order), fifo, source, evidence.transactions)
    ensures evidence.totalPackets == |capture|
    ensures evidence.queryCount == CountPackets(Arrange(capture, order), expected, false, |capture|)
    ensures evidence.responseCount == CountPackets(Arrange(capture, order), expected, true, |capture|)
    ensures evidence.queryCount == evidence.correlatedCount + evidence.unmatchedQueryCount
    ensures evidence.responseCount == evidence.correlatedCount + evidence.unmatchedResponseCount
    ensures evidence.resolvedIps == ResolvedIps(evidence.transactions)
  {
    var positions := SortCapture(capture);
    order := positions;
    evidence, fifo, source := CorrelateOrdered(Arrange(capture, positions), expected);
    FifoIsCaptureMaximum(capture, expected, order, fifo);
  }
}
