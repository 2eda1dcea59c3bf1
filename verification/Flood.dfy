/**
 Flooding of numbered chat messages and receipts over an arbitrary graph of
 peers.  The network may delay, reorder, lose and duplicate; `hist` and `sent`
 record what every peer accepted and passed on.
 */
module Flood {
  import opened CoreTypes
  import opened Chat

  /** A message under way: its receiver, its stream and its number. */
  datatype Packet = Packet(to: nat, stream: Stream, number: Number)

  datatype Accepted = Accepted(stream: Stream, number: Number)

  datatype Copy = Copy(sender: nat, to: nat, what: Accepted)

  /** Peers are numbered; `links[p]` are the peers connected to p. */
  datatype Sys = Sys(
    nodes: seq<seq<Member>>,
    links: seq<set<nat>>,
    bag: multiset<Packet>,
    hist: seq<seq<Accepted>>,
    sent: multiset<Copy>)

  /** A local client of p, with entry k, transmits a message under its name or anonymously; p's receipts; and
      what the network does. */
  datatype Event =
    | Transmit(p: nat, k: nat, number: Number)
    | TransmitAnonymous(p: nat, k: nat, number: Number)
    | Acknowledge(p: nat, id: Id)
    | Deliver(packet: Packet, forwards: bool)
    | Duplicate(packet: Packet)
    | Lose(packet: Packet)

  ghost predicate Shaped(s: Sys) {
    && |s.links| == |s.nodes| && |s.hist| == |s.nodes|
    && (forall p, q :: 0 <= p < |s.nodes| && q in s.links[p] ==> q < |s.nodes|)
    && (forall k :: k in s.bag ==> k.to < |s.nodes|)
  }

  /** What can happen.  Messages are always passed on; receipts are not if their author is here. */
  ghost predicate Enabled(s: Sys, e: Event) {
    match e
    case Transmit(p, k, _) => p < |s.nodes| && k < |s.nodes[p]| && s.nodes[p][k].client.Some?
    case TransmitAnonymous(p, k, _) => p < |s.nodes| && k < |s.nodes[p]| && s.nodes[p][k].client.Some?
    case Acknowledge(p, id) => p < |s.nodes| && LastOf(s.nodes[p], Receipts(id)).Some?
    case Deliver(k, forwards) => k in s.bag && (k.stream.Texts? ==> forwards)
    case Duplicate(k) => k in s.bag
    case Lose(k) => k in s.bag
  }

  /** What members keep to: they transmit through their first entry at a peer (their only one, if they are in
      one room), and number their messages in increasing order; receipts do not wrap. */
  ghost predicate Orderly(s: Sys, e: Event)
    requires Enabled(s, e)
  {
    match e
    case Transmit(p, k, n) => IndexOf(s.nodes[p], s.nodes[p][k].id) == Some(k) && s.nodes[p][k].msgNumber < n
    case TransmitAnonymous(p, k, n) => IndexOf(s.nodes[p], s.nodes[p][k].id) == Some(k) && s.nodes[p][k].msgNumber < n
    case Acknowledge(p, id) => LastOf(s.nodes[p], Receipts(id)).value < 0xFFFF_FFFF
    case _ => true
  }

  ghost function PacketSet(to: set<nat>, a: Accepted): set<Packet> {
    set q | q in to :: Packet(q, a.stream, a.number)
  }

  ghost function Packets(to: set<nat>, a: Accepted): multiset<Packet> {
    multiset(PacketSet(to, a))
  }

  ghost function Copies(p: nat, to: set<nat>, a: Accepted): multiset<Copy> {
    multiset(set q | q in to :: Copy(p, q, a))
  }

  /** A peer has processed a message: its records are now `ms`, and in general it passes the message on. */
  ghost function Process(s: Sys, p: nat, ms: seq<Member>, a: Accepted, forwards: bool): Sys
    requires Shaped(s) && p < |s.nodes|
  {
    var to := if forwards then s.links[p] else {};
    s.(nodes := s.nodes[p := ms],
       hist := s.hist[p := s.hist[p] + [a]],
       bag := s.bag + Packets(to, a),
       sent := s.sent + Copies(p, to, a))
  }

  /** A peer takes a message: it records the number. */
  ghost function Take(s: Sys, p: nat, a: Accepted, forwards: bool): Sys
    requires Shaped(s) && p < |s.nodes|
  {
    Process(s, p, Recorded(s.nodes[p], a.stream, a.number), a, forwards)
  }

  ghost function Step(s: Sys, e: Event): Sys
    requires Shaped(s) && Enabled(s, e)
  {
    match e
    case Transmit(p, k, n) =>
      Process(s, p, Renumbered(s.nodes[p], k, n), Accepted(Texts(s.nodes[p][k].id), n), true)
    case TransmitAnonymous(p, k, n) => s.(nodes := s.nodes[p := Renumbered(s.nodes[p], k, n)])
    case Acknowledge(p, id) =>
      Take(s, p, Accepted(Receipts(id), NextNumber(LastOf(s.nodes[p], Receipts(id)).value)), true)
    case Deliver(k, forwards) =>
      var t := s.(bag := s.bag - multiset{k});
      if Fresh(s.nodes[k.to], k.stream, k.number)
      then Take(t, k.to, Accepted(k.stream, k.number), forwards)
      else t
    case Duplicate(k) => s.(bag := s.bag + multiset{k})
    case Lose(k) => s.(bag := s.bag - multiset{k})
  }

  /** Through the first entry of a member, transmitting is recording. */
  lemma FirstEntry(s: Sys, p: nat, k: nat, n: Number)
    requires Shaped(s) && p < |s.nodes| && k < |s.nodes[p]| && IndexOf(s.nodes[p], s.nodes[p][k].id) == Some(k)
    ensures var ms, st := s.nodes[p], Texts(s.nodes[p][k].id);
            && Renumbered(ms, k, n) == Recorded(ms, st, n)
            && (Fresh(ms, st, n) <==> ms[k].msgNumber < n)
  {}

  // ---- at most once, in order

  ghost function CountOf(h: seq<Accepted>, a: Accepted): nat {
    if h == [] then 0 else CountOf(h[..|h| - 1], a) + if h[|h| - 1] == a then 1 else 0
  }

  /** Numbers of each stream were accepted in increasing order, none beyond the one recorded. */
  ghost predicate HistOk(ms: seq<Member>, h: seq<Accepted>) {
    && (forall i, j :: 0 <= i < j < |h| && h[i].stream == h[j].stream ==> h[i].number < h[j].number)
    && (forall i :: 0 <= i < |h| ==> LastOf(ms, h[i].stream).Some? && h[i].number <= LastOf(ms, h[i].stream).value)
  }

  ghost predicate SentOk(s: Sys) {
    forall c :: c in s.sent ==> c.sender < |s.hist| && s.sent[c] <= CountOf(s.hist[c.sender], c.what)
  }

  ghost predicate Inv(s: Sys) {
    && Shaped(s)
    && (forall p :: 0 <= p < |s.nodes| ==> HistOk(s.nodes[p], s.hist[p]))
    && SentOk(s)
  }

  lemma HistTake(ms: seq<Member>, h: seq<Accepted>, a: Accepted)
    requires HistOk(ms, h) && Fresh(ms, a.stream, a.number)
    ensures HistOk(Recorded(ms, a.stream, a.number), h + [a])
  {
    var ns, g := Recorded(ms, a.stream, a.number), h + [a];
    forall i | 0 <= i < |g| ensures LastOf(ns, g[i].stream).Some? && g[i].number <= LastOf(ns, g[i].stream).value {
      RecordedLast(ms, a.stream, a.number, g[i].stream);
    }
  }

  lemma CountSnoc(h: seq<Accepted>, a: Accepted, b: Accepted)
    ensures CountOf(h + [a], b) == CountOf(h, b) + if a == b then 1 else 0
  {
    assert (h + [a])[..|h|] == h;
  }

  lemma CopiesOnce(p: nat, to: set<nat>, a: Accepted, c: Copy)
    ensures Copies(p, to, a)[c] <= 1
    ensures Copies(p, to, a)[c] > 0 ==> c.sender == p && c.what == a
  {}

  lemma TakeKeeps(s: Sys, p: nat, a: Accepted, forwards: bool)
    requires Inv(s) && p < |s.nodes| && Fresh(s.nodes[p], a.stream, a.number)
    ensures Inv(Take(s, p, a, forwards))
  {
    hide Recorded, LastOf, CountOf, HistOk;
    var t := Take(s, p, a, forwards);
    var to := if forwards then s.links[p] else {};
    HistTake(s.nodes[p], s.hist[p], a);
    forall c | c in t.sent ensures c.sender < |t.hist| && t.sent[c] <= CountOf(t.hist[c.sender], c.what) {
      CopiesOnce(p, to, a, c);
      CountSnoc(s.hist[p], a, c.what);
      assert c in s.sent || Copies(p, to, a)[c] > 0;
    }
    forall k | k in t.bag ensures k.to < |t.nodes| {
      assert k in s.bag || k in Packets(to, a);
    }
  }

  /** The network may do what it likes with the packets. */
  lemma BagKeeps(s: Sys, bag: multiset<Packet>)
    requires Inv(s) && forall k :: k in bag ==> k.to < |s.nodes|
    ensures Inv(s.(bag := bag))
  {
    hide HistOk, CountOf;
  }

  lemma AnonymousKeeps(s: Sys, p: nat, k: nat, n: Number)
    requires Inv(s) && p < |s.nodes| && k < |s.nodes[p]| && IndexOf(s.nodes[p], s.nodes[p][k].id) == Some(k)
    requires s.nodes[p][k].msgNumber < n
    ensures Inv(s.(nodes := s.nodes[p := Renumbered(s.nodes[p], k, n)]))
  {
    hide HistOk, CountOf, Recorded, LastOf;
    FirstEntry(s, p, k, n);
    HistRaised(s.nodes[p], s.hist[p], Texts(s.nodes[p][k].id), n);
  }

  lemma StepKeeps(s: Sys, e: Event)
    requires Inv(s) && Enabled(s, e) && Orderly(s, e)
    ensures Inv(Step(s, e))
  {
    hide Recorded, LastOf, HistOk, SentOk, Process;
    match e {
      case Transmit(p, k, n) =>
        FirstEntry(s, p, k, n);
        TakeKeeps(s, p, Accepted(Texts(s.nodes[p][k].id), n), true);
      case TransmitAnonymous(p, k, n) =>
        AnonymousKeeps(s, p, k, n);
      case Acknowledge(p, id) =>
        TakeKeeps(s, p, Accepted(Receipts(id), LastOf(s.nodes[p], Receipts(id)).value + 1), true);
      case Deliver(k, forwards) =>
        BagKeeps(s, s.bag - multiset{k});
        if Fresh(s.nodes[k.to], k.stream, k.number) {
          TakeKeeps(s.(bag := s.bag - multiset{k}), k.to, Accepted(k.stream, k.number), forwards);
        }
      case Duplicate(k) =>
        BagKeeps(s, s.bag + multiset{k});
      case Lose(k) =>
        BagKeeps(s, s.bag - multiset{k});
    }
  }

  lemma HistRaised(ms: seq<Member>, h: seq<Accepted>, st: Stream, n: Number)
    requires HistOk(ms, h) && Fresh(ms, st, n)
    ensures HistOk(Recorded(ms, st, n), h)
  {
    forall i | 0 <= i < |h|
      ensures var last := LastOf(Recorded(ms, st, n), h[i].stream); last.Some? && h[i].number <= last.value
    {
      RecordedLast(ms, st, n, h[i].stream);
    }
  }

  /** For a number beyond the last one, the entry decides: the peer's history stays in order if and only if the
      member transmits through its first entry there. */
  lemma FirstEntryIff(ms: seq<Member>, h: seq<Accepted>, k: nat, n: Number)
    requires HistOk(ms, h) && k < |ms| && Fresh(ms, Texts(ms[k].id), n)
    ensures HistOk(Renumbered(ms, k, n), h + [Accepted(Texts(ms[k].id), n)]) <==> IndexOf(ms, ms[k].id) == Some(k)
  {
    var st, a := Texts(ms[k].id), Accepted(Texts(ms[k].id), n);
    if IndexOf(ms, ms[k].id) == Some(k) {
      HistTake(ms, h, a);
      assert Renumbered(ms, k, n) == Recorded(ms, st, n);
    } else {
      SameIndex(ms, Renumbered(ms, k, n), ms[k].id);
      assert (h + [a])[|h|] == a;
    }
  }

  lemma {:induction false} CountOnce(h: seq<Accepted>, a: Accepted)
    requires forall i, j :: 0 <= i < j < |h| && h[i].stream == h[j].stream ==> h[i].number < h[j].number
    ensures CountOf(h, a) <= 1
  {
    if h != [] {
      var m := |h| - 1;
      CountOnce(h[..m], a);
      if h[m] == a {
        assert a !in h[..m];
        NotCounted(h[..m], a);
      }
    }
  }

  lemma {:induction false} NotCounted(h: seq<Accepted>, a: Accepted)
    requires a !in h
    ensures CountOf(h, a) == 0
  {
    if h != [] {
      NotCounted(h[..|h| - 1], a);
    }
  }

  /** A run in which members keep to the rules. */
  ghost predicate Run(s: Sys, es: seq<Event>, t: Sys)
    decreases |es|
  {
    if es == [] then s == t else
      Shaped(s) && Enabled(s, es[0]) && Orderly(s, es[0]) && Run(Step(s, es[0]), es[1..], t)
  }

  /** Nothing was accepted or passed on yet. */
  ghost predicate Quiet(s: Sys) {
    Shaped(s) && s.sent == multiset{} && forall p :: 0 <= p < |s.hist| ==> s.hist[p] == []
  }

  lemma {:induction false} RunKeeps(s: Sys, es: seq<Event>, t: Sys)
    requires Inv(s) && Run(s, es, t)
    ensures Inv(t)
    decreases |es|
  {
    if es != [] {
      StepKeeps(s, es[0]);
      RunKeeps(Step(s, es[0]), es[1..], t);
    }
  }

  /** In every run, whatever the network does, each peer accepts each number of a stream at most once and in
      increasing order, and passes it on at most once to each peer. */
  lemma AtMostOnce(s: Sys, es: seq<Event>, t: Sys, p: nat, q: nat, a: Accepted)
    requires Quiet(s) && Run(s, es, t) && p < |t.nodes|
    ensures |t.hist| == |t.nodes|
    ensures forall i, j :: 0 <= i < j < |t.hist[p]| && t.hist[p][i].stream == t.hist[p][j].stream ==>
              t.hist[p][i].number < t.hist[p][j].number
    ensures t.sent[Copy(p, q, a)] <= CountOf(t.hist[p], a) <= 1
  {
    RunKeeps(s, es, t);
    assert HistOk(t.nodes[p], t.hist[p]);
    CountOnce(t.hist[p], a);
    if Copy(p, q, a) !in t.sent {
      assert t.sent[Copy(p, q, a)] == 0;
    }
  }

  // ---- without duplication a flood ends

  const LIMIT := 0x1_0000_0000

  /** How often a peer's records can still grow. */
  ghost function Room(ms: seq<Member>): nat {
    if ms == [] then 0 else
      Room(ms[..|ms| - 1]) + (LIMIT - ms[|ms| - 1].msgNumber) + (LIMIT - ms[|ms| - 1].rcptNumber)
  }

  ghost function RoomOf(nodes: seq<seq<Member>>): nat {
    if nodes == [] then 0 else RoomOf(nodes[..|nodes| - 1]) + Room(nodes[|nodes| - 1])
  }

  /** Decreases with every delivery, if no peer has more than `degree` links. */
  ghost function Measure(s: Sys, degree: nat): nat {
    RoomOf(s.nodes) * (degree + 1) + |s.bag|
  }

  lemma {:induction false} RoomShrinks(ms: seq<Member>, k: nat, m: Member)
    requires k < |ms|
    ensures Room(ms[k := m]) == Room(ms) + (ms[k].msgNumber - m.msgNumber) + (ms[k].rcptNumber - m.rcptNumber)
  {
    var l := |ms| - 1;
    if k == l {
      assert ms[k := m][..l] == ms[..l];
    } else {
      RoomShrinks(ms[..l], k, m);
      assert ms[k := m][..l] == ms[..l][k := m];
    }
  }

  lemma {:induction false} RoomOfAt(nodes: seq<seq<Member>>, p: nat, ms: seq<Member>)
    requires p < |nodes|
    ensures RoomOf(nodes[p := ms]) == RoomOf(nodes) - Room(nodes[p]) + Room(ms)
  {
    var l := |nodes| - 1;
    if p == l {
      assert nodes[p := ms][..l] == nodes[..l];
    } else {
      RoomOfAt(nodes[..l], p, ms);
      assert nodes[p := ms][..l] == nodes[..l][p := ms];
    }
  }

  lemma RoomTaken(ms: seq<Member>, a: Accepted)
    requires Fresh(ms, a.stream, a.number)
    ensures Room(Recorded(ms, a.stream, a.number)) < Room(ms)
  {
    var k := IndexOf(ms, a.stream.id).value;
    RoomShrinks(ms, k, Recorded(ms, a.stream, a.number)[k]);
  }

  lemma {:induction false} PacketsSize(to: set<nat>, a: Accepted)
    ensures |PacketSet(to, a)| == |to|
    decreases |to|
  {
    if |to| > 0 {
      var x :| x in to;
      PacketsSize(to - {x}, a);
      assert PacketSet(to, a) == PacketSet(to - {x}, a) + {Packet(x, a.stream, a.number)};
    } else {
      assert PacketSet(to, a) == {};
    }
  }

  lemma Less(x: nat, y: nat, degree: nat, n: nat)
    requires y < x && n <= degree
    ensures y * (degree + 1) + n < x * (degree + 1)
  {
    assert (y + 1) * (degree + 1) <= x * (degree + 1);
  }

  lemma TakeMeasure(s: Sys, p: nat, a: Accepted, forwards: bool, degree: nat)
    requires Shaped(s) && p < |s.nodes| && Fresh(s.nodes[p], a.stream, a.number) && |s.links[p]| <= degree
    ensures Measure(Take(s, p, a, forwards), degree) < Measure(s, degree)
  {
    hide Room, RoomOf, Recorded, LastOf, PacketSet;
    var to := if forwards then s.links[p] else {};
    var ms := Recorded(s.nodes[p], a.stream, a.number);
    RoomTaken(s.nodes[p], a);
    RoomOfAt(s.nodes, p, ms);
    PacketsSize(to, a);
    Less(RoomOf(s.nodes), RoomOf(s.nodes[p := ms]), degree, |to|);
  }

  lemma TakeShaped(s: Sys, p: nat, a: Accepted, forwards: bool)
    requires Shaped(s) && p < |s.nodes|
    ensures Shaped(Take(s, p, a, forwards)) && Take(s, p, a, forwards).links == s.links
  {
    var to := if forwards then s.links[p] else {};
    forall k | k in Take(s, p, a, forwards).bag ensures k.to < |s.nodes| {
      assert k in s.bag || k in Packets(to, a);
    }
  }

  /** Every event but duplication by the network brings the end nearer, on any graph. */
  lemma FloodEnds(s: Sys, e: Event, degree: nat)
    requires Shaped(s) && Enabled(s, e) && Orderly(s, e) && !e.Duplicate?
    requires forall p :: 0 <= p < |s.links| ==> |s.links[p]| <= degree
    ensures Shaped(Step(s, e)) && Step(s, e).links == s.links
    ensures Measure(Step(s, e), degree) < Measure(s, degree)
  {
    hide RoomOf, Recorded, LastOf, Process, Measure;
    match e {
      case Lose(k) =>
        LoseMeasure(s, k, degree);
      case Transmit(p, k, n) =>
        FirstEntry(s, p, k, n);
        TakeMeasure(s, p, Accepted(Texts(s.nodes[p][k].id), n), true, degree);
        TakeShaped(s, p, Accepted(Texts(s.nodes[p][k].id), n), true);
      case TransmitAnonymous(p, k, n) =>
        FirstEntry(s, p, k, n);
        AnonymousMeasure(s, p, Accepted(Texts(s.nodes[p][k].id), n), degree);
      case Acknowledge(p, id) =>
        var a := Accepted(Receipts(id), LastOf(s.nodes[p], Receipts(id)).value + 1);
        TakeMeasure(s, p, a, true, degree);
        TakeShaped(s, p, a, true);
      case Deliver(k, forwards) =>
        DeliverEnds(s, k, forwards, degree);
    }
  }

  lemma LoseMeasure(s: Sys, k: Packet, degree: nat)
    requires Shaped(s) && k in s.bag
    ensures var t := s.(bag := s.bag - multiset{k}); Shaped(t) && Measure(t, degree) < Measure(s, degree)
  {}

  lemma DeliverEnds(s: Sys, k: Packet, forwards: bool, degree: nat)
    requires Shaped(s) && Enabled(s, Deliver(k, forwards)) && |s.links[k.to]| <= degree
    ensures var t := Step(s, Deliver(k, forwards));
            Shaped(t) && t.links == s.links && Measure(t, degree) < Measure(s, degree)
  {
    hide RoomOf, Recorded, LastOf, Packets, Copies;
    var t := s.(bag := s.bag - multiset{k});
    if Fresh(s.nodes[k.to], k.stream, k.number) {
      TakeMeasure(t, k.to, Accepted(k.stream, k.number), forwards, degree);
      TakeShaped(t, k.to, Accepted(k.stream, k.number), forwards);
    }
  }

  lemma AnonymousMeasure(s: Sys, p: nat, a: Accepted, degree: nat)
    requires Shaped(s) && p < |s.nodes| && Fresh(s.nodes[p], a.stream, a.number)
    ensures Measure(s.(nodes := s.nodes[p := Recorded(s.nodes[p], a.stream, a.number)]), degree) < Measure(s, degree)
  {
    hide Room, RoomOf, Recorded, LastOf;
    var ms := Recorded(s.nodes[p], a.stream, a.number);
    RoomTaken(s.nodes[p], a);
    RoomOfAt(s.nodes, p, ms);
    Less(RoomOf(s.nodes), RoomOf(s.nodes[p := ms]), degree, 0);
  }

  /** So a run without duplication is no longer than the measure of where it starts. */
  lemma {:induction false} RunBounded(s: Sys, es: seq<Event>, t: Sys, degree: nat)
    requires Shaped(s) && Run(s, es, t) && forall k :: 0 <= k < |es| ==> !es[k].Duplicate?
    requires forall p :: 0 <= p < |s.links| ==> |s.links[p]| <= degree
    ensures |es| + Measure(t, degree) <= Measure(s, degree)
    decreases |es|
  {
    hide Measure;
    if es != [] {
      FloodEnds(s, es[0], degree);
      RunBounded(Step(s, es[0]), es[1..], t, degree);
    }
  }

  // ---- without loss a flood reaches everyone

  /** A message of the stream, with this number or a later one, is on its way to the peer. */
  ghost predicate Coming(s: Sys, q: nat, st: Stream, n: Number) {
    exists m: Number :: m >= n && Packet(q, st, m) in s.bag
  }

  /** What a peer has seen of a stream, each peer linked to it that knows the stream has seen, or is going to. */
  ghost predicate Spread(s: Sys, st: Stream, p: nat, q: nat)
    requires Shaped(s) && p < |s.nodes| && q in s.links[p]
  {
    LastOf(s.nodes[p], st).Some? && LastOf(s.nodes[q], st).Some? ==>
      || LastOf(s.nodes[q], st).value >= LastOf(s.nodes[p], st).value
      || Coming(s, q, st, LastOf(s.nodes[p], st).value)
  }

  ghost predicate SpreadAll(s: Sys, st: Stream)
    requires Shaped(s)
  {
    forall p, q :: 0 <= p < |s.nodes| && q in s.links[p] ==> Spread(s, st, p, q)
  }

  /** Nothing is lost, and the stream is not skipped by anonymous messages of its member. */
  ghost predicate Lossless(s: Sys, e: Event, st: Stream)
    requires Enabled(s, e)
  {
    && !e.Lose?
    && (e.TransmitAnonymous? ==> Texts(s.nodes[e.p][e.k].id) != st)
  }

  lemma TakeSpreads(s: Sys, p: nat, a: Accepted, forwards: bool, st: Stream)
    requires Shaped(s) && SpreadAll(s, st) && p < |s.nodes| && Fresh(s.nodes[p], a.stream, a.number)
    requires a.stream == st ==> forwards
    ensures Shaped(Take(s, p, a, forwards)) && SpreadAll(Take(s, p, a, forwards), st)
  {
    hide Recorded, LastOf;
    var t := Take(s, p, a, forwards);
    TakeShaped(s, p, a, forwards);
    RecordedLast(s.nodes[p], a.stream, a.number, st);
    forall r, q | 0 <= r < |t.nodes| && q in t.links[r] ensures Spread(t, st, r, q) {
      assert Spread(s, st, r, q);
      if r == p && a.stream == st {
        assert Packet(q, st, a.number) in PacketSet(s.links[p], a);
        assert Packet(q, st, a.number) in t.bag;
      } else if LastOf(s.nodes[r], st).Some? && Coming(s, q, st, LastOf(s.nodes[r], st).value) {
        var m: Number :| m >= LastOf(s.nodes[r], st).value && Packet(q, st, m) in s.bag;
        assert Packet(q, st, m) in t.bag;
      }
    }
  }

  /** A packet that arrives has done its part, whether it is taken or not. */
  lemma DeliverSpreads(s: Sys, k: Packet, forwards: bool, st: Stream)
    requires Shaped(s) && SpreadAll(s, st) && st.Texts? && Enabled(s, Deliver(k, forwards))
    ensures Shaped(Step(s, Deliver(k, forwards))) && SpreadAll(Step(s, Deliver(k, forwards)), st)
  {
    hide Recorded, LastOf;
    var u := Step(s, Deliver(k, forwards));
    var a := Accepted(k.stream, k.number);
    if Fresh(s.nodes[k.to], k.stream, k.number) {
      TakeSpreads(s, k.to, a, forwards, st);
      var t := Take(s, k.to, a, forwards);
      RecordedLast(s.nodes[k.to], a.stream, a.number, st);
      assert u == t.(bag := u.bag) && u.bag == t.bag - multiset{k};
      LessOne(t, u, k, st);
    } else {
      assert u.bag == s.bag - multiset{k};
      LessOne(s, u, k, st);
    }
  }

  /** A packet that its receiver is not behind of any more is not needed. */
  lemma LessOne(t: Sys, u: Sys, k: Packet, st: Stream)
    requires Shaped(t) && SpreadAll(t, st) && k in t.bag && u == t.(bag := t.bag - multiset{k})
    requires k.stream == st && LastOf(t.nodes[k.to], st).Some? ==> LastOf(t.nodes[k.to], st).value >= k.number
    ensures Shaped(u) && SpreadAll(u, st)
  {
    hide LastOf;
    forall r, q | 0 <= r < |u.nodes| && q in u.links[r] ensures Spread(u, st, r, q) {
      assert Spread(t, st, r, q);
      if LastOf(t.nodes[r], st).Some? && Coming(t, q, st, LastOf(t.nodes[r], st).value) {
        var m: Number :| m >= LastOf(t.nodes[r], st).value && Packet(q, st, m) in t.bag;
        if Packet(q, st, m) != k {
          assert Packet(q, st, m) in u.bag;
        }
      }
    }
  }

  lemma StepSpreads(s: Sys, e: Event, st: Stream)
    requires Shaped(s) && SpreadAll(s, st) && st.Texts? && Enabled(s, e) && Orderly(s, e) && Lossless(s, e, st)
    ensures Shaped(Step(s, e)) && SpreadAll(Step(s, e), st)
  {
    hide Recorded, LastOf, SpreadAll;
    match e {
      case Transmit(p, k, n) =>
        FirstEntry(s, p, k, n);
        TakeSpreads(s, p, Accepted(Texts(s.nodes[p][k].id), n), true, st);
      case TransmitAnonymous(p, k, n) =>
        FirstEntry(s, p, k, n);
        OtherSpreads(s, p, Texts(s.nodes[p][k].id), n, st);
      case Acknowledge(p, id) =>
        TakeSpreads(s, p, Accepted(Receipts(id), LastOf(s.nodes[p], Receipts(id)).value + 1), true, st);
      case Deliver(k, forwards) =>
        DeliverSpreads(s, k, forwards, st);
      case Duplicate(k) =>
        MoreSpreads(s, k, st);
    }
  }

  lemma OtherSpreads(s: Sys, p: nat, other: Stream, n: Number, st: Stream)
    requires Shaped(s) && SpreadAll(s, st) && p < |s.nodes| && LastOf(s.nodes[p], other).Some? && other != st
    ensures var t := s.(nodes := s.nodes[p := Recorded(s.nodes[p], other, n)]); Shaped(t) && SpreadAll(t, st)
  {
    hide Recorded, LastOf;
    RecordedLast(s.nodes[p], other, n, st);
    var t := s.(nodes := s.nodes[p := Recorded(s.nodes[p], other, n)]);
    forall r, q | 0 <= r < |t.nodes| && q in t.links[r] ensures Spread(t, st, r, q) {
      assert Spread(s, st, r, q);
    }
  }

  lemma MoreSpreads(s: Sys, k: Packet, st: Stream)
    requires Shaped(s) && SpreadAll(s, st) && k in s.bag
    ensures var t := s.(bag := s.bag + multiset{k}); Shaped(t) && SpreadAll(t, st)
  {
    hide LastOf;
    var t := s.(bag := s.bag + multiset{k});
    forall r, q | 0 <= r < |t.nodes| && q in t.links[r] ensures Spread(t, st, r, q) {
      assert Spread(s, st, r, q);
      if LastOf(s.nodes[r], st).Some? && Coming(s, q, st, LastOf(s.nodes[r], st).value) {
        var m: Number :| m >= LastOf(s.nodes[r], st).value && Packet(q, st, m) in s.bag;
        assert Packet(q, st, m) in t.bag;
      }
    }
  }

  ghost predicate LosslessRun(s: Sys, es: seq<Event>, st: Stream)
    decreases |es|
  {
    es == [] || (Shaped(s) && Enabled(s, es[0]) && Lossless(s, es[0], st) && LosslessRun(Step(s, es[0]), es[1..], st))
  }

  lemma {:induction false} RunSpreads(s: Sys, es: seq<Event>, t: Sys, st: Stream)
    requires Shaped(s) && SpreadAll(s, st) && st.Texts? && Run(s, es, t) && LosslessRun(s, es, st)
    ensures Shaped(t) && SpreadAll(t, st)
    decreases |es|
  {
    hide SpreadAll;
    if es != [] {
      StepSpreads(s, es[0], st);
      RunSpreads(Step(s, es[0]), es[1..], t, st);
    }
  }

  /** A path over links between peers that all know the stream. */
  ghost predicate Path(s: Sys, st: Stream, path: seq<nat>)
    requires Shaped(s)
  {
    && path != []
    && (forall i :: 0 <= i < |path| ==> path[i] < |s.nodes| && LastOf(s.nodes[path[i]], st).Some?)
    && (forall i :: 0 <= i < |path| - 1 ==> path[i + 1] in s.links[path[i]])
  }

  lemma {:induction false} PathReached(s: Sys, st: Stream, path: seq<nat>)
    requires Shaped(s) && SpreadAll(s, st) && s.bag == multiset{} && Path(s, st, path)
    ensures LastOf(s.nodes[path[|path| - 1]], st).value >= LastOf(s.nodes[path[0]], st).value
  {
    hide LastOf;
    if |path| > 1 {
      var m := |path| - 1;
      PathReached(s, st, path[..m]);
      assert path[m - 1 + 1] in s.links[path[m - 1]];
      assert Spread(s, st, path[m - 1], path[m]);
    }
  }

  /** Once nothing is under way, whatever a peer accepted of a member's messages, every peer it reaches over peers
      that know the member has accepted it or a later one. */
  lemma FloodReaches(s: Sys, es: seq<Event>, t: Sys, a: Accepted, path: seq<nat>)
    requires Quiet(s) && SpreadAll(s, a.stream) && a.stream.Texts? && Run(s, es, t) && LosslessRun(s, es, a.stream)
    requires Shaped(t) && t.bag == multiset{} && Path(t, a.stream, path) && a in t.hist[path[0]]
    ensures LastOf(t.nodes[path[|path| - 1]], a.stream).value >= a.number
  {
    hide LastOf;
    RunKeeps(s, es, t);
    RunSpreads(s, es, t, a.stream);
    PathReached(t, a.stream, path);
    assert HistOk(t.nodes[path[0]], t.hist[path[0]]);
  }

  // ---- when members do not keep to the rules

  /** Numbering in increasing order is needed: a member that goes back makes its own peer take the echo of an
      earlier message for a new one. */
  lemma GoingBack(ms: seq<Member>, stream: Stream, n: Number, back: Number)
    requires Fresh(ms, stream, n)
    ensures Fresh(Recorded(Recorded(ms, stream, n), stream, back), stream, n) <==> back < n
  {
    RecordedLast(ms, stream, n, stream);
    RecordedLast(Recorded(ms, stream, n), stream, back, stream);
  }

  const Echo := Accepted(Texts(7), 1)

  /** Peer 0 has two clients of member 7, in rooms 2 and 1; peer 1 knows the member. */
  function TwoRooms(first: Number, second: Number, other: Number): seq<seq<Member>> {
    [[Member(7, 2, Some(2), {}, first, 0), Member(7, 1, Some(1), {}, second, 0)], [Member(7, 1, None, {}, other, 0)]]
  }

  ghost function Ring(nodes: seq<seq<Member>>, bag: multiset<Packet>, h: seq<seq<Accepted>>, sent: multiset<Copy>)
    : Sys
  {
    Sys(nodes, [{1}, {0}], bag, h, sent)
  }

  lemma OnePacket(p: nat, q: nat)
    ensures Packets({q}, Echo) == multiset{Packet(q, Texts(7), 1)} && Copies(p, {q}, Echo) == multiset{Copy(p, q, Echo)}
  {
    assert PacketSet({q}, Echo) == {Packet(q, Texts(7), 1)};
    assert (set r | r in {q} :: Copy(p, r, Echo)) == {Copy(p, q, Echo)};
  }

  /** A member with two clients at one peer: the one listed last transmits, and when the other peer passes the message
      on, the first peer takes it for new and floods it again. */
  lemma TwoRoomsEcho()
    ensures var s := Ring(TwoRooms(0, 0, 0), multiset{}, [[], []], multiset{});
            var e1, e2 := Transmit(0, 1, 1), Deliver(Packet(1, Texts(7), 1), true);
            var e3 := Deliver(Packet(0, Texts(7), 1), true);
            && Shaped(s) && Enabled(s, e1) && !Orderly(s, e1)
            && var s1 := Step(s, e1);
               && Shaped(s1) && Enabled(s1, e2)
               && var s2 := Step(s1, e2);
                  && Shaped(s2) && Enabled(s2, e3)
                  && Step(s2, e3).sent[Copy(0, 1, Echo)] == 2
  {
    OnePacket(0, 1);
    OnePacket(1, 0);
    EchoOne();
    EchoTwo();
    EchoThree();
  }

  lemma EchoOne()
    requires Packets({1}, Echo) == multiset{Packet(1, Texts(7), 1)}
    requires Copies(0, {1}, Echo) == multiset{Copy(0, 1, Echo)}
    ensures var s := Ring(TwoRooms(0, 0, 0), multiset{}, [[], []], multiset{});
            && Shaped(s) && Enabled(s, Transmit(0, 1, 1)) && !Orderly(s, Transmit(0, 1, 1))
            && Step(s, Transmit(0, 1, 1)) ==
                 Ring(TwoRooms(0, 1, 0), multiset{Packet(1, Texts(7), 1)}, [[Echo], []], multiset{Copy(0, 1, Echo)})
  {
    var s := Ring(TwoRooms(0, 0, 0), multiset{}, [[], []], multiset{});
    assert IndexOf(s.nodes[0], 7) == Some(0);
    assert Renumbered(s.nodes[0], 1, 1) == TwoRooms(0, 1, 0)[0];
    assert s.nodes[0 := TwoRooms(0, 1, 0)[0]] == TwoRooms(0, 1, 0);
    assert s.hist[0] + [Echo] == [Echo];
    assert s.hist[0 := [Echo]] == [[Echo], []];
  }

  lemma EchoTwo()
    requires Packets({0}, Echo) == multiset{Packet(0, Texts(7), 1)}
    requires Copies(1, {0}, Echo) == multiset{Copy(1, 0, Echo)}
    ensures var s := Ring(TwoRooms(0, 1, 0), multiset{Packet(1, Texts(7), 1)}, [[Echo], []],
                          multiset{Copy(0, 1, Echo)});
            && Shaped(s) && Enabled(s, Deliver(Packet(1, Texts(7), 1), true))
            && Step(s, Deliver(Packet(1, Texts(7), 1), true)) ==
                 Ring(TwoRooms(0, 1, 1), multiset{Packet(0, Texts(7), 1)}, [[Echo], [Echo]],
                      multiset{Copy(0, 1, Echo), Copy(1, 0, Echo)})
  {
    var s := Ring(TwoRooms(0, 1, 0), multiset{Packet(1, Texts(7), 1)}, [[Echo], []], multiset{Copy(0, 1, Echo)});
    assert IndexOf(s.nodes[1], 7) == Some(0);
    assert Recorded(s.nodes[1], Texts(7), 1) == TwoRooms(0, 1, 1)[1];
    assert s.nodes[1 := TwoRooms(0, 1, 1)[1]] == TwoRooms(0, 1, 1);
    assert s.hist[1] + [Echo] == [Echo];
    assert s.hist[1 := [Echo]] == [[Echo], [Echo]];
  }

  lemma EchoThree()
    requires Packets({1}, Echo) == multiset{Packet(1, Texts(7), 1)}
    requires Copies(0, {1}, Echo) == multiset{Copy(0, 1, Echo)}
    ensures var s := Ring(TwoRooms(0, 1, 1), multiset{Packet(0, Texts(7), 1)}, [[Echo], [Echo]],
                          multiset{Copy(0, 1, Echo), Copy(1, 0, Echo)});
            && Shaped(s) && Enabled(s, Deliver(Packet(0, Texts(7), 1), true))
            && Step(s, Deliver(Packet(0, Texts(7), 1), true)).sent[Copy(0, 1, Echo)] == 2
  {
    var s := Ring(TwoRooms(0, 1, 1), multiset{Packet(0, Texts(7), 1)}, [[Echo], [Echo]],
                  multiset{Copy(0, 1, Echo), Copy(1, 0, Echo)});
    assert IndexOf(s.nodes[0], 7) == Some(0);
  }
}
