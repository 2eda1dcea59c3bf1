/**
 The client table (gnunet-service-core_clients.c) together with the half of the
 session table that clients can see: type maps and queues of transmission
 requests (gnunet-service-core_sessions.c).
 */
module Registry {
  import opened CoreTypes
  import TypeMap

  // ---------------------------------------------------------------------
  // What one client is told
  // ---------------------------------------------------------------------

  /** A client without handlers handles every type. */
  ghost predicate Handles(types: seq<MsgType>, t: MsgType) {
    types == [] || t in types
  }

  /** Which copies of a message a client is to get, decided from its options and types alone. */
  ghost predicate Wants(options: set<Flag>, types: seq<MsgType>, t: MsgType, flag: Flag) {
    match flag
    case FullInbound => FullInbound in options || Handles(types, t)
    case HdrInbound => HdrInbound in options && FullInbound !in options && !Handles(types, t)
    case FullOutbound => FullOutbound in options
    case HdrOutbound => HdrOutbound in options && FullOutbound !in options
  }

  /** The last connect or disconnect notice about a peer is a connect. */
  ghost predicate InTouch(outbox: seq<Notice>, p: Peer) {
    outbox != [] &&
    var n := outbox[|outbox| - 1];
    n == Connect(p) || (n != Disconnect(p) && InTouch(outbox[..|outbox| - 1], p))
  }

  /** A notice may follow what the client was told before. */
  ghost predicate NoticeOk(me: Peer, types: seq<MsgType>, before: seq<Notice>, n: Notice) {
    match n
    case InitReply => before == []
    case Connect(p) => p != me && !InTouch(before, p)
    case Disconnect(p) => InTouch(before, p)
    case SendReady(p) => p == me || InTouch(before, p)
    case Traffic(p, t, _) => Handles(types, t) ==> p == me || InTouch(before, p)
  }

  ghost predicate Faithful(me: Peer, types: seq<MsgType>, outbox: seq<Notice>) {
    forall k :: 0 <= k < |outbox| ==> NoticeOk(me, types, outbox[..k], outbox[k])
  }

  /** The client's connection map is what its notices add up to, and every notice was in order. */
  ghost predicate ClientOk(me: Peer, c: Client) {
    && me in c.connected
    && (forall p :: p != me ==> (p in c.connected <==> InTouch(c.outbox, p)))
    && Faithful(me, c.types, c.outbox)
  }

  lemma FaithfulAppend(me: Peer, types: seq<MsgType>, outbox: seq<Notice>, n: Notice)
    requires Faithful(me, types, outbox) && NoticeOk(me, types, outbox, n)
    ensures Faithful(me, types, outbox + [n])
  {
    var o := outbox + [n];
    forall k | 0 <= k < |o| ensures NoticeOk(me, types, o[..k], o[k]) {
      assert k < |outbox| ==> o[..k] == outbox[..k];
      assert k == |outbox| ==> o[..k] == outbox;
    }
  }

  /** The connect and disconnect notices about one peer, in order. */
  ghost function About(outbox: seq<Notice>, p: Peer): seq<Notice> {
    if outbox == [] then [] else
      var n := outbox[|outbox| - 1];
      About(outbox[..|outbox| - 1], p) + (if n == Connect(p) || n == Disconnect(p) then [n] else [])
  }

  /** Connect and disconnect notices strictly alternate, starting with a connect. */
  lemma {:induction false} NoticesAlternate(me: Peer, types: seq<MsgType>, outbox: seq<Notice>, p: Peer)
    requires Faithful(me, types, outbox)
    ensures var a := About(outbox, p);
            (forall i :: 0 <= i < |a| ==> a[i] == if i % 2 == 0 then Connect(p) else Disconnect(p))
            && (InTouch(outbox, p) <==> |a| % 2 == 1)
  {
    if outbox != [] {
      var k := |outbox| - 1;
      var before := outbox[..k];
      forall j | 0 <= j < k ensures NoticeOk(me, types, before[..j], before[j]) {
        assert before[..j] == outbox[..j];
      }
      assert NoticeOk(me, types, outbox[..k], outbox[k]);
      NoticesAlternate(me, types, before, p);
    }
  }

  /** At most one of the full copy and the header copy reaches a client in each direction. */
  lemma CopiesExclude(options: set<Flag>, types: seq<MsgType>, t: MsgType)
    ensures !(Wants(options, types, t, FullInbound) && Wants(options, types, t, HdrInbound))
    ensures !(Wants(options, types, t, FullOutbound) && Wants(options, types, t, HdrOutbound))
  {}

  /** A client after a peer's type map went from matching (or not) to matching (or not). */
  ghost function Notified(c: Client, p: Peer, was: bool, now: bool): Client {
    if was == now then c
    else if now then c.(connected := c.connected + {p}, outbox := c.outbox + [Connect(p)])
    else c.(connected := c.connected - {p}, outbox := c.outbox + [Disconnect(p)])
  }

  lemma TouchAppend(outbox: seq<Notice>, n: Notice, p: Peer)
    ensures InTouch(outbox + [n], p) <==> n == Connect(p) || (n != Disconnect(p) && InTouch(outbox, p))
  {
    assert (outbox + [n])[..|outbox|] == outbox;
  }

  lemma NotifiedOk(me: Peer, c: Client, p: Peer, was: bool, now: bool)
    requires ClientOk(me, c) && p != me && (p in c.connected <==> was)
    ensures ClientOk(me, Notified(c, p, was, now))
  {
    if was != now {
      var n := if now then Connect(p) else Disconnect(p);
      FaithfulAppend(me, c.types, c.outbox, n);
      var d := Notified(c, p, was, now);
      forall q | q != me ensures q in d.connected <==> InTouch(d.outbox, q) {
        TouchAppend(c.outbox, n, q);
      }
    }
  }

  /** A client after a message was offered to it. */
  ghost function Copied(c: Client, p: Peer, t: MsgType, flag: Flag): Client {
    if Wants(c.options, c.types, t, flag) then c.(outbox := c.outbox + [Traffic(p, t, flag)]) else c
  }

  lemma SameTouch(me: Peer, c: Client, n: Notice)
    requires ClientOk(me, c) && NoticeOk(me, c.types, c.outbox, n)
    requires !n.Connect? && !n.Disconnect?
    ensures ClientOk(me, c.(outbox := c.outbox + [n]))
  {
    FaithfulAppend(me, c.types, c.outbox, n);
    forall q | q != me ensures q in c.connected <==> InTouch(c.outbox + [n], q) {
      TouchAppend(c.outbox, n, q);
    }
  }

  lemma CopiedOk(me: Peer, c: Client, p: Peer, t: MsgType, flag: Flag)
    requires ClientOk(me, c)
    requires Handles(c.types, t) ==> p in c.connected
    ensures ClientOk(me, Copied(c, p, t, flag))
  {
    if Wants(c.options, c.types, t, flag) {
      SameTouch(me, c, Traffic(p, t, flag));
    }
  }

  // ---------------------------------------------------------------------
  // The invariant of the two tables
  // ---------------------------------------------------------------------

  /** A value holding the state of the tables; `held` are requests a running send handler owns. */
  datatype Reg = Reg(
    me: Peer,
    clients: map<Handle, Client>,
    sessions: map<Peer, Session>,
    heap: map<Ref, Request>,
    held: set<Ref>,
    options: set<Flag>)

  /** The peers with a session whose type map matches the client's types, and ourselves. */
  ghost predicate ConnExact(r: Reg, c: Client) {
    forall p :: p in c.connected <==>
      p == r.me || (p in r.sessions && TypeMap.Matches(Some(r.sessions[p].tmap), c.types))
  }

  ghost predicate ClientsOk(r: Reg) {
    forall h :: h in r.clients ==> ClientOk(r.me, r.clients[h])
  }

  ghost predicate ConnOk(r: Reg) {
    && r.me !in r.sessions
    && forall h :: h in r.clients ==> ConnExact(r, r.clients[h])
  }

  /** The owner's request map holds the request under its target. */
  ghost predicate Listed(r: Reg, x: Ref)
    requires x in r.heap
  {
    var q := r.heap[x];
    q.owner in r.clients && q.target in r.clients[q.owner].requests && r.clients[q.owner].requests[q.target] == x
  }

  /** The request sits in the queue of its target's session. */
  ghost predicate Queued(r: Reg, x: Ref)
    requires x in r.heap
  {
    r.heap[x].target in r.sessions && x in r.sessions[r.heap[x].target].queue
  }

  /** A live request is listed by its client or held by a send handler, and queued unless loopback. */
  ghost predicate LiveOk(r: Reg, x: Ref)
    requires x in r.heap
  {
    && (x in r.held <==> !Listed(r, x))
    && (x in r.held ==> r.heap[x].solicited || r.heap[x].target == r.me)
    && (r.heap[x].target != r.me ==> Queued(r, x))
  }

  ghost predicate HeapOk(r: Reg) {
    forall x :: x in r.heap ==> LiveOk(r, x)
  }

  /** The entry of a client's request map under a peer is a live request of that client to that peer. */
  ghost predicate EntryOk(r: Reg, h: Handle, p: Peer)
    requires h in r.clients && p in r.clients[h].requests
  {
    var x := r.clients[h].requests[p];
    x in r.heap && r.heap[x].owner == h && r.heap[x].target == p
  }

  /** A session's queue holds live requests for its peer, each once. */
  ghost predicate QueueOk(r: Reg, p: Peer)
    requires p in r.sessions
  {
    && NoDup(r.sessions[p].queue)
    && (forall x :: x in r.sessions[p].queue ==> x in r.heap && r.heap[x].target == p)
  }

  /** No map entry and no queue entry dangles. */
  ghost predicate RefsOk(r: Reg) {
    && (forall h, p :: h in r.clients && p in r.clients[h].requests ==> EntryOk(r, h, p))
    && (forall p :: p in r.sessions ==> QueueOk(r, p))
    && (forall x :: x in r.held ==> x in r.heap)
  }

  ghost predicate ReqOk(r: Reg) {
    HeapOk(r) && RefsOk(r)
  }

  /** The big "or" of all client options. */
  ghost predicate OptionsExact(options: set<Flag>, cs: map<Handle, Client>) {
    forall f :: f in options <==> exists h :: h in cs && f in cs[h].options
  }

  ghost predicate RegOk(r: Reg) {
    ConnOk(r) && ClientsOk(r) && ReqOk(r) && OptionsExact(r.options, r.clients)
  }

  lemma OptionsFrame(options: set<Flag>, cs: map<Handle, Client>, cs': map<Handle, Client>)
    requires OptionsExact(options, cs) && cs.Keys == cs'.Keys
    requires forall h :: h in cs ==> cs[h].options == cs'[h].options
    ensures OptionsExact(options, cs')
  {
    forall f ensures f in options <==> exists h :: h in cs' && f in cs'[h].options {
      if f in options {
        var h :| h in cs && f in cs[h].options;
        assert h in cs' && f in cs'[h].options;
      }
    }
  }

  /** Releasing a request: out of its client's map, out of its session's queue, freed. */
  ghost function Dropped(r: Reg, x: Ref): Reg
    requires x in r.heap && Listed(r, x)
    requires r.heap[x].target != r.me ==> r.heap[x].target in r.sessions
  {
    var q := r.heap[x];
    var c := r.clients[q.owner];
    r.(clients := r.clients[q.owner := c.(requests := c.requests - {q.target})],
       sessions := if q.target == r.me then r.sessions
                   else r.sessions[q.target := r.sessions[q.target].(queue := Without(r.sessions[q.target].queue, x))],
       heap := r.heap - {x})
  }

  lemma DroppedLive(r: Reg, x: Ref, y: Ref)
    requires HeapOk(r) && r.me !in r.sessions
    requires x in r.heap && Listed(r, x) && (r.heap[x].target != r.me ==> r.heap[x].target in r.sessions)
    requires y in r.heap && y != x
    ensures LiveOk(Dropped(r, x), y)
  {
    assert LiveOk(r, x) && LiveOk(r, y);
    if y !in r.held && r.heap[y].owner == r.heap[x].owner {
      assert r.heap[y].target != r.heap[x].target;
    }
  }

  lemma DroppedRefs(r: Reg, x: Ref)
    requires RefsOk(r) && r.me !in r.sessions
    requires x in r.heap && Listed(r, x) && (r.heap[x].target != r.me ==> r.heap[x].target in r.sessions)
    requires x !in r.held
    ensures RefsOk(Dropped(r, x))
  {
    var d := Dropped(r, x);
    forall h, p | h in d.clients && p in d.clients[h].requests ensures EntryOk(d, h, p) {
      assert EntryOk(r, h, p);
    }
    forall p | p in d.sessions ensures QueueOk(d, p) {
      assert QueueOk(r, p);
    }
  }

  lemma DroppedOk(r: Reg, x: Ref)
    requires ReqOk(r) && r.me !in r.sessions
    requires x in r.heap && Listed(r, x)
    ensures r.heap[x].target != r.me ==> r.heap[x].target in r.sessions
    ensures ReqOk(Dropped(r, x))
  {
    assert LiveOk(r, x);
    assert ReqOk(Dropped(r, x)) by {
      hide RefsOk, LiveOk;
      DroppedRefs(r, x);
      forall y | y in Dropped(r, x).heap ensures LiveOk(Dropped(r, x), y) {
        DroppedLive(r, x, y);
      }
    }
  }

  /** A queued request is live, for that session's peer, and not ours. */
  lemma QueuedLive(r: Reg, p: Peer, x: Ref)
    requires RegOk(r) && p in r.sessions && x in r.sessions[p].queue
    ensures p != r.me && x in r.heap && r.heap[x].target == p && NoDup(r.sessions[p].queue)
    ensures x !in r.held ==> Listed(r, x)
    ensures x in r.held ==> r.heap[x].solicited
  {
    assert QueueOk(r, p);
    assert LiveOk(r, x);
  }

  ghost predicate SameButSolicited(q: Request, q': Request) {
    q' == q.(solicited := q'.solicited) && (q.solicited ==> q'.solicited)
  }

  /**
   What soliciting for one peer may do to the tables: requests of that peer are
   marked or dropped and their clients are told to send, nothing else changes.
   */
  ghost predicate Drained(a: Reg, b: Reg, p: Peer) {
    && a.me == b.me && a.held == b.held && a.options == b.options
    && a.clients.Keys == b.clients.Keys
    && (forall h :: h in a.clients ==> ClientDrained(a.clients[h], b.clients[h], p))
    && b.sessions == (if p in a.sessions then a.sessions[p := a.sessions[p].(queue := QueueOf(b, p))] else a.sessions)
    && (forall x :: x in b.heap ==> x in a.heap && SameButSolicited(a.heap[x], b.heap[x]))
    && (forall x :: x in a.heap && (x in a.held || a.heap[x].target != p) ==> x in b.heap)
  }

  ghost predicate ClientDrained(c: Client, c': Client, p: Peer) {
    && c'.types == c.types && c'.options == c.options && c'.connected == c.connected && c'.asked == c.asked
    && (c'.requests == c.requests || c'.requests == c.requests - {p})
    && c.outbox <= c'.outbox
  }

  lemma DrainedRefl(a: Reg, p: Peer)
    ensures Drained(a, a, p)
  {}

  lemma DrainedTrans(a: Reg, b: Reg, c: Reg, p: Peer)
    requires Drained(a, b, p) && Drained(b, c, p)
    ensures Drained(a, c, p)
  {}

  /** Every client's connection map and notices after a peer's type map changed. */
  ghost function NotifiedAll(cs: map<Handle, Client>, p: Peer, was: Option<set<MsgType>>, now: Option<set<MsgType>>)
    : map<Handle, Client>
  {
    map h | h in cs :: Notified(cs[h], p, TypeMap.Matches(was, cs[h].types), TypeMap.Matches(now, cs[h].types))
  }

  lemma NotifiedAllOk(r: Reg, p: Peer, was: Option<set<MsgType>>, now: Option<set<MsgType>>)
    requires ClientsOk(r) && p != r.me
    requires forall h :: h in r.clients ==> (p in r.clients[h].connected <==> TypeMap.Matches(was, r.clients[h].types))
    ensures ClientsOk(r.(clients := NotifiedAll(r.clients, p, was, now)))
  {
    forall h | h in r.clients ensures ClientOk(r.me, NotifiedAll(r.clients, p, was, now)[h]) {
      var c := r.clients[h];
      NotifiedOk(r.me, c, p, TypeMap.Matches(was, c.types), TypeMap.Matches(now, c.types));
    }
  }

  ghost function TmapOf(r: Reg, p: Peer): Option<set<MsgType>> {
    if p in r.sessions then Some(r.sessions[p].tmap) else None
  }

  ghost function QueueOf(r: Reg, p: Peer): seq<Ref> {
    if p in r.sessions then r.sessions[p].queue else []
  }

  /** Connection maps stay exact when one peer's type map changes and the clients were notified of it. */
  lemma ConnMoves(a: Reg, b: Reg, p: Peer)
    requires ConnOk(a) && TmapMoved(a, b, p)
    ensures ConnOk(b)
  {
    assert TmapOf(b, b.me) == TmapOf(a, a.me) == None;
    forall h | h in b.clients ensures ConnExact(b, b.clients[h]) {
      assert ConnExact(a, a.clients[h]);
      forall q ensures q in b.clients[h].connected <==>
        q == b.me || (q in b.sessions && TypeMap.Matches(Some(b.sessions[q].tmap), b.clients[h].types))
      {
        if q != p && q != b.me {
          assert TmapOf(a, q) == TmapOf(b, q);
        }
      }
    }
  }

  /** Request bookkeeping only depends on request maps and queues. */
  lemma ReqFrame(a: Reg, b: Reg)
    requires ReqOk(a)
    requires b.me == a.me && b.heap == a.heap && b.held == a.held && b.clients.Keys == a.clients.Keys
    requires forall h :: h in a.clients ==> b.clients[h].requests == a.clients[h].requests
    requires forall p :: QueueOf(a, p) == QueueOf(b, p)
    ensures ReqOk(b)
  {
    forall x | x in b.heap ensures LiveOk(b, x) {
      assert LiveOk(a, x);
      assert QueueOf(a, a.heap[x].target) == QueueOf(b, b.heap[x].target);
    }
    forall h, p | h in b.clients && p in b.clients[h].requests ensures EntryOk(b, h, p) {
      assert EntryOk(a, h, p);
    }
    forall p | p in b.sessions ensures QueueOk(b, p) {
      assert QueueOf(a, p) == QueueOf(b, p);
      assert p in a.sessions ==> QueueOk(a, p);
    }
  }

  /** What a change of one peer's type map does to the tables. */
  ghost predicate TmapMoved(a: Reg, b: Reg, p: Peer) {
    && b.me == a.me != p && b.heap == a.heap && b.held == a.held && b.options == a.options
    && b.clients == NotifiedAll(a.clients, p, TmapOf(a, p), TmapOf(b, p))
    && (forall q :: q != p ==> TmapOf(a, q) == TmapOf(b, q))
    && (forall q :: QueueOf(a, q) == QueueOf(b, q))
  }

  lemma TmapStepClients(a: Reg, b: Reg, p: Peer)
    requires ClientsOk(a) && ConnOk(a) && TmapMoved(a, b, p)
    ensures ClientsOk(b)
  {
    ConnAt(a, p);
    NotifiedAllOk(a, p, TmapOf(a, p), TmapOf(b, p));
  }

  lemma TmapStepRequests(a: Reg, b: Reg, p: Peer)
    requires ReqOk(a) && TmapMoved(a, b, p)
    ensures ReqOk(b)
  {
    ReqFrame(a, b);
  }

  lemma TmapStepOptions(a: Reg, b: Reg, p: Peer)
    requires OptionsExact(a.options, a.clients) && TmapMoved(a, b, p)
    ensures OptionsExact(b.options, b.clients)
  {
    OptionsFrame(a.options, a.clients, b.clients);
  }

  lemma TmapStep(a: Reg, b: Reg, p: Peer)
    requires RegOk(a) && TmapMoved(a, b, p)
    ensures RegOk(b)
  {
    TmapStepClients(a, b, p);
    ConnMoves(a, b, p);
    TmapStepRequests(a, b, p);
    TmapStepOptions(a, b, p);
  }

  lemma ConnAt(a: Reg, p: Peer)
    requires ConnOk(a) && p != a.me
    ensures forall h :: h in a.clients ==>
              (p in a.clients[h].connected <==> TypeMap.Matches(TmapOf(a, p), a.clients[h].types))
  {
    forall h | h in a.clients
      ensures p in a.clients[h].connected <==> TypeMap.Matches(TmapOf(a, p), a.clients[h].types)
    {
      assert ConnExact(a, a.clients[h]);
    }
  }

  /** The requests a queue keeps when those past their deadline and not yet solicited are discarded. */
  ghost function Unexpired(q: seq<Ref>, heap: map<Ref, Request>, now: nat): (r: seq<Ref>)
    ensures forall x :: x in r ==> x in q
  {
    if q == [] then [] else
      var x := q[|q| - 1];
      Unexpired(q[..|q| - 1], heap, now) + (if Expired(heap, x, now) then [] else [x])
  }

  ghost predicate Expired(heap: map<Ref, Request>, x: Ref, now: nat) {
    x in heap && heap[x].deadline < now && !heap[x].solicited
  }

  lemma UnexpiredPrefix(q: seq<Ref>, heap: map<Ref, Request>, now: nat, k: nat)
    requires k <= |q|
    ensures k == 0 ==> Unexpired(q[..k], heap, now) == []
    ensures k > 0 ==> Unexpired(q[..k], heap, now) == Unexpired(q[..k - 1], heap, now) +
                          (if Expired(heap, q[k - 1], now) then [] else [q[k - 1]])
  {
    if k > 0 {
      assert q[..k][..k - 1] == q[..k - 1];
    }
  }

  /** The longest prefix of a queue whose sizes fit into one encrypted message. */
  ghost function Affordable(q: seq<Ref>, heap: map<Ref, Request>, total: nat): seq<Ref> {
    if q == [] || q[0] !in heap || total + heap[q[0]].size > MAX_ENCRYPTED then []
    else [q[0]] + Affordable(q[1..], heap, total + heap[q[0]].size)
  }

  lemma AffordableStep(q: seq<Ref>, heap: map<Ref, Request>, total: nat)
    ensures q == [] ==> Affordable(q, heap, total) == []
    ensures q != [] && q[0] in heap && total + heap[q[0]].size > MAX_ENCRYPTED ==> Affordable(q, heap, total) == []
    ensures q != [] && q[0] in heap && total + heap[q[0]].size <= MAX_ENCRYPTED ==>
              Affordable(q, heap, total) == [q[0]] + Affordable(q[1..], heap, total + heap[q[0]].size)
  {}

  /** The bytes that a run of requests asks for. */
  ghost function SizeOf(q: seq<Ref>, heap: map<Ref, Request>): nat {
    if q == [] then 0 else (if q[0] in heap then heap[q[0]].size else 0) + SizeOf(q[1..], heap)
  }

  /** The requests that are affordable head the queue, fit together, and the next one does not fit with them. */
  lemma {:induction false} AffordableLongest(q: seq<Ref>, heap: map<Ref, Request>, total: nat)
    requires total <= MAX_ENCRYPTED && forall x :: x in q ==> x in heap
    ensures var r := Affordable(q, heap, total);
            && r <= q && total + SizeOf(r, heap) <= MAX_ENCRYPTED
            && (r == q || total + SizeOf(r, heap) + heap[q[|r|]].size > MAX_ENCRYPTED)
  {
    if q != [] && total + heap[q[0]].size <= MAX_ENCRYPTED {
      AffordableLongest(q[1..], heap, total + heap[q[0]].size);
      var r := Affordable(q, heap, total);
      assert r[1..] == Affordable(q[1..], heap, total + heap[q[0]].size);
    }
  }

  /** The requests considered are solicited, the others are as they were. */
  ghost predicate Marked(before: map<Ref, Request>, heap: map<Ref, Request>, done: seq<Ref>) {
    forall x :: x in heap ==>
      && x in before
      && heap[x] == if x in done then before[x].(solicited := true) else before[x]
  }

  lemma MarkedStep(before: map<Ref, Request>, heap: map<Ref, Request>, done: seq<Ref>, heap': map<Ref, Request>, x: Ref)
    requires Marked(before, heap, done) && x in heap && x !in done
    requires x in heap' ==> heap'[x] == heap[x].(solicited := true)
    requires forall y :: y in heap' && y != x ==> y in heap && heap'[y] == heap[y]
    ensures Marked(before, heap', done + [x])
  {}

  lemma NothingMarked(before: map<Ref, Request>, heap: map<Ref, Request>)
    requires forall x :: x in heap ==> x in before && heap[x] == before[x]
    ensures Marked(before, heap, [])
  {}

  lemma MarkedAt(before: map<Ref, Request>, heap: map<Ref, Request>, done: seq<Ref>, x: Ref)
    requires Marked(before, heap, done) && x in heap
    ensures x in before && (x !in done ==> heap[x] == before[x])
  {}

  /** A client's request to the peer is among those considered, and had not been solicited before. */
  ghost predicate Granted(c: Client, p: Peer, done: seq<Ref>, before: map<Ref, Request>) {
    p in c.requests && c.requests[p] in done && c.requests[p] in before && !before[c.requests[p]].solicited
  }

  /** Exactly the clients whose requests were granted were told so, once each. */
  ghost predicate Grants(was: map<Handle, Client>, cs: map<Handle, Client>, p: Peer, done: seq<Ref>,
                         before: map<Ref, Request>)
  {
    && cs.Keys == was.Keys
    && forall h :: h in cs ==>
         cs[h].outbox == was[h].outbox + (if Granted(cs[h], p, done, before) then [SendReady(p)] else [])
  }

  /** The request was not solicited yet, and its peer is out of its client's reach now. */
  ghost predicate Unreachable(r: Reg, x: Ref) {
    && x in r.heap && !r.heap[x].solicited
    && r.heap[x].owner in r.clients && r.heap[x].target !in r.clients[r.heap[x].owner].connected
  }

  ghost function UnreachableOf(r: Reg, xs: seq<Ref>): set<Ref> {
    set x | x in xs && Unreachable(r, x)
  }

  /** A queue without the members of a set. */
  ghost function Sifted(q: seq<Ref>, gone: set<Ref>): seq<Ref> {
    if q == [] then [] else (if q[0] in gone then [] else [q[0]]) + Sifted(q[1..], gone)
  }

  lemma {:induction false} SiftedMember(q: seq<Ref>, gone: set<Ref>, x: Ref)
    ensures x in Sifted(q, gone) <==> x in q && x !in gone
  {
    if q != [] {
      SiftedMember(q[1..], gone, x);
    }
  }

  lemma {:induction false} SiftedNone(q: seq<Ref>)
    ensures Sifted(q, {}) == q
  {
    if q != [] {
      SiftedNone(q[1..]);
    }
  }

  lemma WithoutHead(y: Ref, q: seq<Ref>, x: Ref)
    ensures Without([y] + q, x) == (if y == x then [] else [y]) + Without(q, x)
    ensures Without([], x) == []
  {
    assert ([y] + q)[1..] == q;
  }

  lemma {:induction false} SiftedMore(q: seq<Ref>, gone: set<Ref>, x: Ref)
    ensures Sifted(q, gone + {x}) == Without(Sifted(q, gone), x)
  {
    if q != [] {
      hide Without;
      SiftedMore(q[1..], gone, x);
      var rest := Sifted(q[1..], gone);
      WithoutHead(q[0], rest, x);
      assert [] + rest == rest;
    }
  }

  /** The queue after one more request was considered. */
  lemma SiftStep(kept: seq<Ref>, a: Reg, done: seq<Ref>, x: Ref)
    ensures Sifted(kept, UnreachableOf(a, done + [x])) ==
              if Unreachable(a, x) then Without(Sifted(kept, UnreachableOf(a, done)), x)
              else Sifted(kept, UnreachableOf(a, done))
  {
    hide Unreachable, Sifted;
    if Unreachable(a, x) {
      SiftedMore(kept, UnreachableOf(a, done), x);
      assert UnreachableOf(a, done + [x]) == UnreachableOf(a, done) + {x};
    } else {
      assert UnreachableOf(a, done + [x]) == UnreachableOf(a, done);
    }
  }

  /**
   What soliciting for a peer does: of the requests that have not expired, as many as fit into one message are
   considered; those out of reach are dropped, the others are marked and their clients told, once.
   */
  ghost predicate Solicited(a: Reg, b: Reg, p: Peer, now: nat) {
    p in a.sessions && p in b.sessions &&
    var kept := Unexpired(a.sessions[p].queue, a.heap, now);
    var span := Affordable(kept, a.heap, 0);
    && b.sessions[p].queue == Sifted(kept, UnreachableOf(a, span))
    && (forall x :: x in b.heap <==> x in a.heap && (x in a.sessions[p].queue ==> x in b.sessions[p].queue))
    && Marked(a.heap, b.heap, span)
    && Grants(a.clients, b.clients, p, span, a.heap)
  }

  /** Requests leave the heap exactly as they leave the queue. */
  lemma HeapFollowsQueue(a: Reg, b: Reg, p: Peer)
    requires RegOk(a) && RegOk(b) && Drained(a, b, p) && p in a.sessions && p in b.sessions
    ensures forall x :: x in b.heap <==> x in a.heap && (x in a.sessions[p].queue ==> x in b.sessions[p].queue)
  {
    assert QueueOk(a, p) && QueueOk(b, p);
    forall x ensures x in b.heap <==> x in a.heap && (x in a.sessions[p].queue ==> x in b.sessions[p].queue) {
      if x in a.heap {
        assert LiveOk(a, x);
      }
      if x in b.heap {
        assert LiveOk(b, x) && SameButSolicited(a.heap[x], b.heap[x]);
      }
    }
  }

  /**
   Of the requests considered, exactly those within their client's reach, or granted before, stay: queued, listed by
   their client and granted; the client was told exactly if the request was not granted before.
   */
  lemma GrantedIff(a: Reg, b: Reg, p: Peer, now: nat, x: Ref)
    requires RegOk(a) && RegOk(b) && Solicited(a, b, p, now) && a.held == b.held && x !in a.held
    requires x in Affordable(Unexpired(a.sessions[p].queue, a.heap, now), a.heap, 0)
    ensures x in a.heap && a.heap[x].target == p && a.heap[x].owner in a.clients && a.heap[x].owner in b.clients
    ensures var q := a.heap[x];
            && (x in b.heap <==> q.solicited || p in a.clients[q.owner].connected)
            && (x in b.heap <==> x in b.sessions[p].queue)
            && (x in b.heap ==> b.heap[x] == q.(solicited := true) && Listed(b, x))
            && b.clients[q.owner].outbox == a.clients[q.owner].outbox +
                 (if x in b.heap && !q.solicited then [SendReady(p)] else [])
  {
    hide ConnOk, ClientsOk, HeapOk, RefsOk, OptionsExact, Unexpired, Affordable, Sifted, LiveOk;
    var kept := Unexpired(a.sessions[p].queue, a.heap, now);
    var span := Affordable(kept, a.heap, 0);
    AffordableIn(kept, a.heap, 0, x);
    QueuedLive(a, p, x);
    var o := a.heap[x].owner;
    assert Listed(a, x);
    SiftedMember(kept, UnreachableOf(a, span), x);
    if x in b.heap {
      QueuedLive(b, p, x);
    } else if p in b.clients[o].requests && b.clients[o].requests[p] in span {
      OwnRequest(a, b, o, p);
    }
  }

  lemma {:induction false} UnexpiredHead(q: seq<Ref>, heap: map<Ref, Request>, now: nat)
    requires q != [] && !Expired(heap, q[0], now)
    ensures Unexpired(q, heap, now) != [] && Unexpired(q, heap, now)[0] == q[0]
  {
    if |q| > 1 {
      UnexpiredHead(q[..|q| - 1], heap, now);
    }
  }

  /** The request at the head of the queue, if it has not expired and its peer is in reach, is granted at once. */
  lemma HeadGranted(a: Reg, b: Reg, p: Peer, now: nat, x: Ref)
    requires RegOk(a) && RegOk(b) && Solicited(a, b, p, now) && a.held == b.held == {}
    requires a.sessions[p].queue != [] && a.sessions[p].queue[0] == x && x in a.heap
    requires a.heap[x].size <= MAX_ENCRYPTED && !a.heap[x].solicited && !Expired(a.heap, x, now)
    requires a.heap[x].owner in a.clients && p in a.clients[a.heap[x].owner].connected
    ensures x in b.heap && b.heap[x].solicited && a.heap[x].owner in b.clients
    ensures b.clients[a.heap[x].owner].outbox == a.clients[a.heap[x].owner].outbox + [SendReady(p)]
  {
    hide RegOk, Unexpired, Affordable, Expired, Sifted, Marked, Grants;
    var kept := Unexpired(a.sessions[p].queue, a.heap, now);
    UnexpiredHead(a.sessions[p].queue, a.heap, now);
    AffordableStep(kept, a.heap, 0);
    assert x in Affordable(kept, a.heap, 0);
    GrantedIff(a, b, p, now, x);
  }

  /** A request within reach stays as it is, granted or not, unless it expired. */
  lemma RequestStays(a: Reg, b: Reg, p: Peer, x: Ref, clock: nat -> nat, i: nat, j: nat)
    requires RegOk(b) && Drained(a, b, p) && a.held == {} && p != a.me && Spared(a, b, clock, i, j)
    requires x in a.heap && a.heap[x].target == p && !Unreachable(a, x)
    ensures if x in b.heap then Listed(b, x) && Queued(b, x) && SameButSolicited(a.heap[x], b.heap[x])
            else exists k :: i <= k < j && a.heap[x].deadline < clock(k)
  {
    if x in b.heap {
      assert LiveOk(b, x);
    } else {
      var k :| i <= k < j && Expired(a.heap, x, clock(k));
    }
  }

  /** A client has no other request for the peer than the one it had. */
  lemma OwnRequest(a: Reg, b: Reg, h: Handle, p: Peer)
    requires RegOk(a) && RegOk(b) && a.held == b.held && (forall x :: x in b.heap ==> x in a.heap)
    requires forall x :: x in b.heap ==> b.heap[x].owner == a.heap[x].owner && b.heap[x].target == a.heap[x].target
    requires h in b.clients && p in b.clients[h].requests && h in a.clients
    ensures p in a.clients[h].requests && a.clients[h].requests[p] == b.clients[h].requests[p]
    ensures b.clients[h].requests[p] in b.heap
  {
    ListedLive(b, h, p);
    assert LiveOk(a, b.clients[h].requests[p]);
  }

  lemma {:induction false} AffordableIn(q: seq<Ref>, heap: map<Ref, Request>, total: nat, x: Ref)
    requires x in Affordable(q, heap, total)
    ensures x in q && x in heap
  {
    if x != q[0] {
      AffordableIn(q[1..], heap, total + heap[q[0]].size, x);
    }
  }

  /** A request is dropped only because its peer is out of reach or because it expired, by one of the clock's readings
      from `i` on and before `j`. */
  ghost predicate Spared(a: Reg, b: Reg, clock: nat -> nat, i: nat, j: nat) {
    forall x :: x in a.heap && x !in b.heap ==>
      Unreachable(a, x) || exists k :: i <= k < j && Expired(a.heap, x, clock(k))
  }

  lemma SparedRefl(a: Reg, clock: nat -> nat, i: nat, j: nat)
    ensures Spared(a, a, clock, i, j)
  {}

  lemma SparedWider(a: Reg, b: Reg, clock: nat -> nat, i: nat, j: nat, i': nat)
    requires Spared(a, b, clock, i, j) && i' <= i
    ensures Spared(a, b, clock, i', j)
  {
    hide Unreachable, Expired;
  }

  /** Exactly the requests that expired unsolicited are discarded. */
  lemma {:induction false} UnexpiredIff(q: seq<Ref>, heap: map<Ref, Request>, now: nat, x: Ref)
    ensures x in Unexpired(q, heap, now) <==> x in q && !Expired(heap, x, now)
  {
    if q != [] {
      UnexpiredIff(q[..|q| - 1], heap, now, x);
      assert q == q[..|q| - 1] + [q[|q| - 1]];
    }
  }

  lemma SolicitedSpared(a: Reg, b: Reg, p: Peer, clock: nat -> nat, k: nat)
    requires Solicited(a, b, p, clock(k))
    ensures Spared(a, b, clock, k, k + 1)
  {
    hide Unexpired, Affordable, Sifted, Marked, Grants, Unreachable, Expired;
    var kept := Unexpired(a.sessions[p].queue, a.heap, clock(k));
    forall x | x in a.heap && x !in b.heap
      ensures Unreachable(a, x) || exists i :: k <= i < k + 1 && Expired(a.heap, x, clock(i))
    {
      if !Expired(a.heap, x, clock(k)) {
        UnexpiredIff(a.sessions[p].queue, a.heap, clock(k), x);
        SiftedMember(kept, UnreachableOf(a, Affordable(kept, a.heap, 0)), x);
      }
    }
  }

  /** The same clients, and nothing was sent to them. */
  ghost predicate NothingTold(was: map<Handle, Client>, cs: map<Handle, Client>) {
    cs.Keys == was.Keys && forall h :: h in cs ==> cs[h].outbox == was[h].outbox
  }

  lemma NothingToldRefl(cs: map<Handle, Client>)
    ensures NothingTold(cs, cs)
  {}

  lemma NothingToldTrans(a: map<Handle, Client>, b: map<Handle, Client>, c: map<Handle, Client>)
    requires NothingTold(a, b) && NothingTold(b, c)
    ensures NothingTold(a, c)
  {}

  lemma NoGrants(was: map<Handle, Client>, cs: map<Handle, Client>, p: Peer, before: map<Ref, Request>)
    requires NothingTold(was, cs)
    ensures Grants(was, cs, p, [], before)
  {}

  lemma OnlyOwner(r: Reg, h: Handle, p: Peer, x: Ref)
    requires RegOk(r) && h in r.clients && p in r.clients[h].requests && r.clients[h].requests[p] == x
    ensures x in r.heap && r.heap[x].owner == h
  {
    ListedLive(r, h, p);
  }

  /** A request solicited earlier is passed over. */
  lemma GrantSkip(r: Reg, was: map<Handle, Client>, p: Peer, done: seq<Ref>, before: map<Ref, Request>, x: Ref)
    requires Grants(was, r.clients, p, done, before) && x in before && before[x].solicited
    ensures Grants(was, r.clients, p, done + [x], before)
  {}

  /** A request is solicited: its client is told, or it is dropped. */
  lemma GrantStep(r: Reg, cs: map<Handle, Client>, was: map<Handle, Client>, p: Peer, done: seq<Ref>,
                  before: map<Ref, Request>, x: Ref, o: Handle, told: bool)
    requires RegOk(r) && Grants(was, r.clients, p, done, before) && x !in done && x in before && !before[x].solicited
    requires x in r.heap && Listed(r, x) && r.heap[x].owner == o && r.heap[x].target == p
    requires o in cs && cs == r.clients[o := cs[o]]
    requires cs[o] == if told then r.clients[o].(outbox := r.clients[o].outbox + [SendReady(p)])
                      else r.clients[o].(requests := r.clients[o].requests - {p})
    ensures Grants(was, cs, p, done + [x], before)
  {
    hide RegOk;
    forall h | h in cs
      ensures cs[h].outbox == was[h].outbox + (if Granted(cs[h], p, done + [x], before) then [SendReady(p)] else [])
    {
      if h != o && p in cs[h].requests && cs[h].requests[p] == x {
        OnlyOwner(r, h, p, x);
      }
    }
  }

  /** Whether a request is within reach does not change while others are considered. */
  lemma SameReach(a: Reg, b: Reg, p: Peer, x: Ref)
    requires Drained(a, b, p) && x in a.heap && x in b.heap && b.heap[x] == a.heap[x]
    ensures Unreachable(a, x) <==> Unreachable(b, x)
  {
    if a.heap[x].owner in a.clients {
      assert ClientDrained(a.clients[a.heap[x].owner], b.clients[a.heap[x].owner], p);
    }
  }

  lemma QueueNoDup(r: Reg, p: Peer)
    requires RegOk(r) && p in r.sessions
    ensures NoDup(r.sessions[p].queue)
  {
    assert QueueOk(r, p);
  }

  lemma DroppedStep(r: Reg, x: Ref)
    requires RegOk(r) && x in r.heap && Listed(r, x)
    ensures r.heap[x].target != r.me ==> r.heap[x].target in r.sessions
    ensures RegOk(Dropped(r, x)) && Drained(r, Dropped(r, x), r.heap[x].target)
  {
    assert LiveOk(r, x);
    DroppedOk(r, x);
    DroppedRest(r, x);
    DroppedDrained(r, x);
  }

  /** What clients are told only depends on the sessions' type maps. */
  lemma SameView(a: Reg, b: Reg)
    requires ConnOk(a) && ClientsOk(a) && OptionsExact(a.options, a.clients)
    requires b.me == a.me && b.options == a.options && b.clients.Keys == a.clients.Keys
    requires forall h :: h in a.clients ==>
               b.clients[h] == a.clients[h].(requests := b.clients[h].requests, asked := b.clients[h].asked)
    requires b.sessions.Keys == a.sessions.Keys
    requires forall p :: p in a.sessions ==> b.sessions[p].tmap == a.sessions[p].tmap
    ensures ConnOk(b) && ClientsOk(b) && OptionsExact(b.options, b.clients)
  {
    forall h | h in b.clients ensures ConnExact(b, b.clients[h]) && ClientOk(b.me, b.clients[h]) {
      assert ConnExact(a, a.clients[h]);
      assert ClientOk(a.me, a.clients[h]);
    }
    OptionsFrame(a.options, a.clients, b.clients);
  }

  lemma DroppedRest(r: Reg, x: Ref)
    requires ConnOk(r) && ClientsOk(r) && OptionsExact(r.options, r.clients) && x in r.heap && Listed(r, x)
    requires r.heap[x].target != r.me ==> r.heap[x].target in r.sessions
    ensures var d := Dropped(r, x); ConnOk(d) && ClientsOk(d) && OptionsExact(d.options, d.clients)
  {
    SameView(r, Dropped(r, x));
  }

  lemma DroppedDrained(r: Reg, x: Ref)
    requires HeapOk(r) && x in r.heap && Listed(r, x)
    requires r.heap[x].target != r.me ==> r.heap[x].target in r.sessions
    requires r.me !in r.sessions
    ensures Drained(r, Dropped(r, x), r.heap[x].target)
  {
    assert LiveOk(r, x);
  }

  ghost function Mark(r: Reg, x: Ref): Reg
    requires x in r.heap
  {
    r.(heap := r.heap[x := r.heap[x].(solicited := true)])
  }

  lemma MarkReq(r: Reg, x: Ref)
    requires ReqOk(r) && x in r.heap
    ensures ReqOk(Mark(r, x))
  {
    var b := Mark(r, x);
    forall y | y in b.heap ensures LiveOk(b, y) {
      assert LiveOk(r, y);
    }
    forall h, p | h in b.clients && p in b.clients[h].requests ensures EntryOk(b, h, p) {
      assert EntryOk(r, h, p);
    }
    forall p | p in b.sessions ensures QueueOk(b, p) {
      assert QueueOk(r, p);
    }
  }

  lemma MarkDrained(r: Reg, x: Ref)
    requires x in r.heap
    ensures Drained(r, Mark(r, x), r.heap[x].target)
  {}

  lemma MarkStep(r: Reg, x: Ref)
    requires RegOk(r) && x in r.heap
    ensures RegOk(Mark(r, x)) && Drained(r, Mark(r, x), r.heap[x].target)
  {
    hide ConnOk, ClientsOk, HeapOk, RefsOk, OptionsExact, Drained;
    MarkReq(r, x);
    MarkDrained(r, x);
    SameView(r, Mark(r, x));
  }

  /** Clients were sent something, in order; nothing else changed. */
  lemma OutboxStep(a: Reg, b: Reg)
    requires RegOk(a) && b == a.(clients := b.clients) && b.clients.Keys == a.clients.Keys
    requires forall h :: h in a.clients ==> b.clients[h] == a.clients[h].(outbox := b.clients[h].outbox)
    requires ClientsOk(b)
    ensures RegOk(b)
  {
    hide ClientsOk;
    assert ConnOk(b) by {
      hide HeapOk, RefsOk, OptionsExact;
      forall k | k in b.clients ensures ConnExact(b, b.clients[k]) {
        assert ConnExact(a, a.clients[k]);
      }
    }
    assert ReqOk(b) by {
      hide ConnOk, OptionsExact, HeapOk, RefsOk;
      ReqFrame(a, b);
    }
    OptionsFrame(a.options, a.clients, b.clients);
  }

  ghost function ToldReady(r: Reg, h: Handle, p: Peer): Reg
    requires h in r.clients
  {
    r.(clients := r.clients[h := r.clients[h].(outbox := r.clients[h].outbox + [SendReady(p)])])
  }

  lemma ReadyStep(r: Reg, h: Handle, p: Peer)
    requires RegOk(r) && h in r.clients && p in r.clients[h].connected
    ensures RegOk(ToldReady(r, h, p)) && Drained(r, ToldReady(r, h, p), p)
  {
    hide ConnOk, HeapOk, RefsOk, OptionsExact, ClientsOk, Drained;
    ReadyClients(r, h, p);
    OutboxStep(r, ToldReady(r, h, p));
    ReadyDrained(r, h, p);
  }

  lemma ReadyClients(r: Reg, h: Handle, p: Peer)
    requires ClientsOk(r) && h in r.clients && p in r.clients[h].connected
    ensures ClientsOk(ToldReady(r, h, p))
  {
    assert ClientOk(r.me, r.clients[h]);
    SameTouch(r.me, r.clients[h], SendReady(p));
  }

  lemma ReadyDrained(r: Reg, h: Handle, p: Peer)
    requires h in r.clients
    ensures Drained(r, ToldReady(r, h, p), p)
  {}

  // ---- delivering messages

  ghost function CopiedAll(cs: map<Handle, Client>, p: Peer, t: MsgType, flag: Flag): map<Handle, Client> {
    map h | h in cs :: Copied(cs[h], p, t, flag)
  }

  /** The tables once a peer is known to handle a type. */
  ghost function Extended(r: Reg, p: Peer, t: MsgType): Reg
    requires p == r.me || p in r.sessions
  {
    if p == r.me then r else
      var s := r.sessions[p];
      r.(sessions := r.sessions[p := s.(tmap := s.tmap + {t})],
         clients := NotifiedAll(r.clients, p, Some(s.tmap), Some(s.tmap + {t})))
  }

  /** Delivery of one copy: the type map learns the type if any client may care, and every client that
      wants the copy gets it. */
  ghost function Delivered(r: Reg, p: Peer, t: MsgType, flag: Flag): Reg
    requires p == r.me || p in r.sessions
  {
    var m := if flag == FullInbound || flag in r.options then Extended(r, p, t) else r;
    m.(clients := CopiedAll(m.clients, p, t, flag))
  }

  /** The shortcut over the or of all options never suppresses a copy that the full scan would send. */
  lemma NobodyWants(r: Reg, p: Peer, t: MsgType, flag: Flag)
    requires OptionsExact(r.options, r.clients) && flag != FullInbound && flag !in r.options
    ensures CopiedAll(r.clients, p, t, flag) == r.clients
  {
    forall h | h in r.clients ensures Copied(r.clients[h], p, t, flag) == r.clients[h] {
      assert flag !in r.clients[h].options;
    }
  }

  /** Clients handling a type that a peer is known to handle have been told of that peer. */
  lemma HandlersInTouch(r: Reg, p: Peer, t: MsgType)
    requires ConnOk(r) && (p == r.me || (p in r.sessions && t in r.sessions[p].tmap))
    ensures forall h :: h in r.clients && Handles(r.clients[h].types, t) ==> p in r.clients[h].connected
  {
    forall h | h in r.clients && Handles(r.clients[h].types, t) ensures p in r.clients[h].connected {
      assert ConnExact(r, r.clients[h]);
    }
  }

  lemma CopiedAllOk(r: Reg, p: Peer, t: MsgType, flag: Flag)
    requires RegOk(r) && (p == r.me || (p in r.sessions && t in r.sessions[p].tmap))
    ensures RegOk(r.(clients := CopiedAll(r.clients, p, t, flag)))
  {
    var b := r.(clients := CopiedAll(r.clients, p, t, flag));
    HandlersInTouch(r, p, t);
    assert ClientsOk(b) by {
      forall h | h in b.clients ensures ClientOk(b.me, b.clients[h]) {
        CopiedOk(r.me, r.clients[h], p, t, flag);
      }
    }
    assert RegOk(b) by {
      hide ConnOk, HeapOk, RefsOk, OptionsExact, ClientsOk;
      OutboxStep(r, b);
    }
  }

  /** Clients may have been told something, and type maps may have grown; nothing else changed. */
  ghost predicate Told(a: Reg, b: Reg) {
    && b.me == a.me && b.heap == a.heap && b.held == a.held && b.options == a.options
    && b.clients.Keys == a.clients.Keys && b.sessions.Keys == a.sessions.Keys
    && (forall h :: h in a.clients ==> SameAccount(a.clients[h], b.clients[h]))
    && (forall p :: p in a.sessions ==> b.sessions[p].queue == a.sessions[p].queue)
  }

  ghost predicate SameAccount(c: Client, c': Client) {
    && c'.types == c.types && c'.options == c.options && c'.requests == c.requests && c'.asked == c.asked
    && c.outbox <= c'.outbox
  }

  lemma ExtendedTold(r: Reg, p: Peer, t: MsgType)
    requires p == r.me || p in r.sessions
    ensures Told(r, Extended(r, p, t))
  {}

  lemma CopiedTold(r: Reg, p: Peer, t: MsgType, flag: Flag)
    ensures Told(r, r.(clients := CopiedAll(r.clients, p, t, flag)))
  {
    hide Wants;
  }

  lemma ToldTrans(a: Reg, b: Reg, c: Reg)
    requires Told(a, b) && Told(b, c)
    ensures Told(a, c)
  {}

  lemma DeliveredTold(r: Reg, p: Peer, t: MsgType, flag: Flag)
    requires p == r.me || p in r.sessions
    ensures Told(r, Delivered(r, p, t, flag))
  {
    hide Told, Extended, CopiedAll;
    if flag == FullInbound || flag in r.options {
      ExtendedTold(r, p, t);
      CopiedTold(Extended(r, p, t), p, t, flag);
      ToldTrans(r, Extended(r, p, t), Delivered(r, p, t, flag));
    } else {
      CopiedTold(r, p, t, flag);
    }
  }

  /** The copies of messages that a client was sent, in order. */
  ghost function TrafficOf(outbox: seq<Notice>): seq<Notice> {
    if outbox == [] then [] else
      TrafficOf(outbox[..|outbox| - 1]) + if outbox[|outbox| - 1].Traffic? then [outbox[|outbox| - 1]] else []
  }

  lemma TrafficAppend(outbox: seq<Notice>, n: Notice)
    ensures TrafficOf(outbox + [n]) == TrafficOf(outbox) + if n.Traffic? then [n] else []
  {
    assert (outbox + [n])[..|outbox|] == outbox;
  }

  /** Delivery of one copy, with the type map extended first, sends a client that copy if it wants it, and no other. */
  lemma DeliveredTraffic(r: Reg, p: Peer, t: MsgType, flag: Flag, h: Handle)
    requires (p == r.me || p in r.sessions) && h in r.clients && OptionsExact(r.options, r.clients)
    ensures var c, d := r.clients[h], Delivered(r, p, t, flag);
            && d.options == r.options && h in d.clients && (p == d.me || p in d.sessions)
            && OptionsExact(d.options, d.clients)
            && d.clients[h].types == c.types && d.clients[h].options == c.options
            && TrafficOf(d.clients[h].outbox) ==
                 TrafficOf(c.outbox) + if Wants(c.options, c.types, t, flag) then [Traffic(p, t, flag)] else []
  {
    hide TrafficOf, Wants, OptionsExact, Extended, Told;
    var c, d := r.clients[h], Delivered(r, p, t, flag);
    var m := if flag == FullInbound || flag in r.options then Extended(r, p, t) else r;
    ExtendedTraffic(r, p, t, h);
    TrafficAppend(m.clients[h].outbox, Traffic(p, t, flag));
    DeliveredTold(r, p, t, flag);
    ToldOptions(r, d);
  }

  lemma ExtendedTraffic(r: Reg, p: Peer, t: MsgType, h: Handle)
    requires (p == r.me || p in r.sessions) && h in r.clients
    ensures var c, m := r.clients[h], Extended(r, p, t);
            && h in m.clients && m.clients[h].types == c.types && m.clients[h].options == c.options
            && TrafficOf(m.clients[h].outbox) == TrafficOf(c.outbox)
  {
    hide TrafficOf;
    TrafficAppend(r.clients[h].outbox, Connect(p));
    TrafficAppend(r.clients[h].outbox, Disconnect(p));
  }

  lemma ToldOptions(a: Reg, b: Reg)
    requires Told(a, b) && OptionsExact(a.options, a.clients)
    ensures OptionsExact(b.options, b.clients) && b.options == a.options && b.me == a.me
    ensures b.sessions.Keys == a.sessions.Keys
    ensures b.clients.Keys == a.clients.Keys
  {
    hide OptionsExact;
    forall h | h in a.clients ensures a.clients[h].options == b.clients[h].options {
      assert SameAccount(a.clients[h], b.clients[h]);
    }
    OptionsFrame(a.options, a.clients, b.clients);
  }

  lemma DeliveredMe(r: Reg, t: MsgType)
    ensures Delivered(Delivered(r, r.me, t, FullOutbound), r.me, t, HdrOutbound).me == r.me
  {}

  /** What a client gets of an inbound message: the full copy, or the header, or nothing. */
  ghost function InboundCopy(options: set<Flag>, types: seq<MsgType>, p: Peer, t: MsgType): seq<Notice> {
    if FullInbound in options || Handles(types, t) then [Traffic(p, t, FullInbound)]
    else if HdrInbound in options then [Traffic(p, t, HdrInbound)]
    else []
  }

  /** What a client gets of an outbound message. */
  ghost function OutboundCopy(options: set<Flag>, p: Peer, t: MsgType): seq<Notice> {
    if FullOutbound in options then [Traffic(p, t, FullOutbound)]
    else if HdrOutbound in options then [Traffic(p, t, HdrOutbound)]
    else []
  }

  /** A message delivered inbound (or outbound) reaches a client as one copy at most: the full one, or the header,
      or none, as its options and types say. */
  lemma AtMostOneCopy(r: Reg, p: Peer, t: MsgType, h: Handle)
    requires (p == r.me || p in r.sessions) && h in r.clients && OptionsExact(r.options, r.clients)
    ensures var c := r.clients[h];
            var b := Delivered(Delivered(r, p, t, FullInbound), p, t, HdrInbound);
            && h in b.clients && b.clients[h].types == c.types && b.clients[h].options == c.options
            && OptionsExact(b.options, b.clients)
            && TrafficOf(b.clients[h].outbox) == TrafficOf(c.outbox) + InboundCopy(c.options, c.types, p, t)
    ensures var c := r.clients[h];
            var b := Delivered(Delivered(r, p, t, FullOutbound), p, t, HdrOutbound);
            && h in b.clients && b.clients[h].types == c.types && b.clients[h].options == c.options
            && OptionsExact(b.options, b.clients)
            && TrafficOf(b.clients[h].outbox) == TrafficOf(c.outbox) + OutboundCopy(c.options, p, t)
  {
    hide TrafficOf, Delivered, OptionsExact;
    CopiesExclude(r.clients[h].options, r.clients[h].types, t);
    DeliveredTraffic(r, p, t, FullInbound, h);
    DeliveredTraffic(Delivered(r, p, t, FullInbound), p, t, HdrInbound, h);
    DeliveredTraffic(r, p, t, FullOutbound, h);
    DeliveredTraffic(Delivered(r, p, t, FullOutbound), p, t, HdrOutbound, h);
  }

  // ---- sessions end, clients come and go

  lemma WithoutShrinks(q: seq<Ref>, x: Ref)
    requires q != [] && q[0] == x
    ensures |Without(q, x)| < |q|
  {}

  lemma DrainedHeld(a: Reg, b: Reg, p: Peer)
    requires Drained(a, b, p)
    ensures b.held == a.held
  {}

  lemma AbsentPeer(r: Reg, p: Peer)
    requires RegOk(r) && p != r.me && p !in r.sessions
    ensures forall h :: h in r.clients ==> p !in r.clients[h].connected && p !in r.clients[h].requests
  {
    forall h | h in r.clients ensures p !in r.clients[h].connected && p !in r.clients[h].requests {
      assert ConnExact(r, r.clients[h]);
      if p in r.clients[h].requests {
        ListedLive(r, h, p);
      }
    }
  }

  lemma EmptyQueue(r: Reg, p: Peer)
    requires RegOk(r) && p in r.sessions && r.sessions[p].queue == []
    ensures p != r.me
    ensures forall h :: h in r.clients ==> p !in r.clients[h].requests
  {
    forall h | h in r.clients ensures p !in r.clients[h].requests {
      if p in r.clients[h].requests {
        ListedLive(r, h, p);
      }
    }
  }

  lemma SessionGone(a: Reg, b: Reg, p: Peer)
    requires Drained(a, b, p) && p in a.sessions && ConnOk(b) && p != b.me
    requires forall h :: h in b.clients ==> p !in b.clients[h].requests
    requires forall h :: h in b.clients && h in a.clients ==> b.clients[h].outbox == a.clients[h].outbox
    ensures b.sessions - {p} == a.sessions - {p}
    ensures var cs := NotifiedAll(b.clients, p, Some(b.sessions[p].tmap), None);
            && cs.Keys == a.clients.Keys
            && forall h :: h in cs ==>
                && cs[h].types == a.clients[h].types && cs[h].options == a.clients[h].options
                && cs[h].asked == a.clients[h].asked
                && cs[h].connected == a.clients[h].connected - {p}
                && cs[h].requests == a.clients[h].requests - {p}
                && cs[h].outbox == a.clients[h].outbox + (if p in a.clients[h].connected then [Disconnect(p)] else [])
  {
    ConnAt(b, p);
    var cs := NotifiedAll(b.clients, p, Some(b.sessions[p].tmap), None);
    forall h | h in cs
      ensures cs[h].requests == a.clients[h].requests - {p} && cs[h].connected == a.clients[h].connected - {p}
    {
      assert ClientDrained(a.clients[h], b.clients[h], p);
      assert p !in b.clients[h].requests;
    }
  }

  lemma MeHasNoSession(r: Reg)
    requires ConnOk(r)
    ensures r.me !in r.sessions
  {}

  lemma NewClientOk(me: Peer, c: Client)
    requires c.connected == {me} && c.outbox == [InitReply]
    ensures ClientOk(me, c)
  {
    assert c.outbox[..0] == [];
    forall p ensures !InTouch(c.outbox, p) {
      TouchAppend([], InitReply, p);
      assert [] + [InitReply] == c.outbox;
    }
  }

  /** Clients without requests may come and go. */
  lemma ReqClientSet(a: Reg, b: Reg)
    requires ReqOk(a)
    requires b.me == a.me && b.heap == a.heap && b.held == a.held && b.sessions == a.sessions
    requires forall k :: k in a.clients ==>
               a.clients[k].requests == map[] || (k in b.clients && b.clients[k].requests == a.clients[k].requests)
    requires forall k :: k in b.clients ==>
               b.clients[k].requests == map[] || (k in a.clients && b.clients[k].requests == a.clients[k].requests)
    ensures ReqOk(b)
  {
    forall x | x in b.heap ensures LiveOk(b, x) {
      assert LiveOk(a, x);
    }
    forall k, p | k in b.clients && p in b.clients[k].requests ensures EntryOk(b, k, p) {
      assert EntryOk(a, k, p);
    }
    forall p | p in b.sessions ensures QueueOk(b, p) {
      assert QueueOk(a, p);
    }
  }

  lemma ClientAdded(a: Reg, b: Reg, h: Handle)
    requires RegOk(a) && h !in a.clients
    requires b.clients.Keys == a.clients.Keys + {h}
    requires forall k :: k in a.clients ==> b.clients[k] == a.clients[k]
    requires b == a.(clients := b.clients, options := a.options + b.clients[h].options)
    requires b.clients[h].requests == map[] && ClientOk(b.me, b.clients[h]) && ConnExact(b, b.clients[h])
    ensures RegOk(b)
  {
    assert ConnOk(b) by {
      forall k | k in b.clients ensures ConnExact(b, b.clients[k]) {
        if k != h { assert ConnExact(a, a.clients[k]); }
      }
    }
    assert ClientsOk(b);
    assert ReqOk(b) by {
      hide ConnOk, ClientsOk, OptionsExact, HeapOk, RefsOk;
      ReqClientSet(a, b);
    }
    forall f ensures f in b.options <==> exists k :: k in b.clients && f in b.clients[k].options {
      if f in a.options {
        var k :| k in a.clients && f in a.clients[k].options;
        assert k in b.clients && f in b.clients[k].options;
      }
    }
  }

  lemma ListedLive(r: Reg, h: Handle, p: Peer)
    requires RegOk(r) && h in r.clients && p in r.clients[h].requests
    ensures var x := r.clients[h].requests[p];
            && x in r.heap && Listed(r, x) && r.heap[x].owner == h && r.heap[x].target == p && x !in r.held
            && (p != r.me ==> p in r.sessions && x in r.sessions[p].queue)
  {
    assert EntryOk(r, h, p);
    assert LiveOk(r, r.clients[h].requests[p]);
  }

  lemma FewerRequests(m: map<Peer, Ref>, p: Peer)
    requires p in m
    ensures |m - {p}| < |m|
  {
    assert (m - {p}).Keys == m.Keys - {p};
  }

  lemma OptionsStep(options: set<Flag>, cs: map<Handle, Client>, todo: set<Handle>, k: Handle)
    requires k in todo && todo <= cs.Keys
    requires forall f :: f in options <==> exists j :: j in cs && j !in todo && f in cs[j].options
    ensures forall f :: f in options + cs[k].options <==> exists j :: j in cs && j !in todo - {k} && f in cs[j].options
  {
    forall f ensures f in options + cs[k].options <==> exists j :: j in cs && j !in todo - {k} && f in cs[j].options {
      if f in options {
        var j :| j in cs && j !in todo && f in cs[j].options;
        assert j in cs && j !in todo - {k} && f in cs[j].options;
      }
    }
  }

  lemma ClientRemoved(a: Reg, b: Reg, h: Handle)
    requires RegOk(a) && h in a.clients && a.clients[h].requests == map[] && a.held == {}
    requires b == a.(clients := a.clients - {h}, options := b.options)
    requires OptionsExact(b.options, b.clients)
    ensures RegOk(b)
  {
    assert ConnOk(b) by {
      forall k | k in b.clients ensures ConnExact(b, b.clients[k]) {
        assert ConnExact(a, a.clients[k]);
      }
    }
    assert ClientsOk(b);
    assert ReqOk(b) by {
      hide ConnOk, ClientsOk, OptionsExact, HeapOk, RefsOk;
      ReqClientSet(a, b);
    }
  }

  // ---- a client asks to send

  lemma ConnectedHasSession(r: Reg, h: Handle, p: Peer)
    requires RegOk(r) && h in r.clients
    ensures p in r.clients[h].connected && p != r.me ==> p in r.sessions
    ensures r.me in r.clients[h].connected && r.me !in r.sessions
  {
    assert ConnExact(r, r.clients[h]);
  }

  lemma FreshNotQueued(r: Reg, p: Peer, x: Ref)
    requires RegOk(r) && x !in r.heap
    ensures p in r.sessions ==> x !in r.sessions[p].queue
  {
    if p in r.sessions {
      assert QueueOk(r, p);
    }
  }

  /** The tables after a client's request `x` for a peer was (re)placed at the head of the queue. */
  ghost function Asked(r: Reg, h: Handle, p: Peer, x: Ref, deadline: nat, size: nat): Reg
    requires h in r.clients && (p != r.me ==> p in r.sessions)
  {
    r.(clients := r.clients[h := r.clients[h].(requests := r.clients[h].requests[p := x])],
       heap := r.heap[x := Request(h, p, deadline, size, false)],
       sessions := if p == r.me then r.sessions
                   else r.sessions[p := r.sessions[p].(queue := [x] + Without(r.sessions[p].queue, x))])
  }

  /** The same, before the request is put into the queue. */
  ghost function Parked(r: Reg, h: Handle, p: Peer, x: Ref, deadline: nat, size: nat): Reg
    requires h in r.clients && p != r.me && p in r.sessions
  {
    Asked(r, h, p, x, deadline, size).(
      sessions := r.sessions[p := r.sessions[p].(queue := Without(r.sessions[p].queue, x))])
  }

  lemma ParkedDropped(r: Reg, h: Handle, p: Peer, x: Ref, deadline: nat, size: nat)
    requires h in r.clients && p != r.me && p in r.sessions
    ensures var k := Parked(r, h, p, x, deadline, size);
            var d := Dropped(Asked(r, h, p, x, deadline, size), x);
            && d.heap == k.heap - {x}
            && d.clients == k.clients[h := k.clients[h].(requests := k.clients[h].requests - {p})]
            && d.sessions == k.sessions
  {
    var q := r.sessions[p].queue;
    assert ([x] + Without(q, x))[1..] == Without(q, x);
    assert Without([x] + Without(q, x), x) == Without(q, x);
  }

  /** The handle is the one already listed, or a fresh one when none is. */
  ghost predicate Usable(r: Reg, h: Handle, p: Peer, x: Ref) {
    h in r.clients && (if p in r.clients[h].requests then r.clients[h].requests[p] == x else x !in r.heap)
  }

  lemma AskedLive(r: Reg, h: Handle, p: Peer, x: Ref, deadline: nat, size: nat, y: Ref)
    requires ReqOk(r) && Usable(r, h, p, x) && r.me !in r.sessions && (p != r.me ==> p in r.sessions)
    requires y == x || y in r.heap
    ensures LiveOk(Asked(r, h, p, x, deadline, size), y)
  {
    var b := Asked(r, h, p, x, deadline, size);
    if y == x {
      assert x in r.held ==> x in r.heap;
      if p in r.clients[h].requests {
        assert EntryOk(r, h, p);
        assert LiveOk(r, x);
      }
    } else {
      assert LiveOk(r, y);
    }
  }

  lemma AskedRefs(r: Reg, h: Handle, p: Peer, x: Ref, deadline: nat, size: nat)
    requires ReqOk(r) && Usable(r, h, p, x) && r.me !in r.sessions && (p != r.me ==> p in r.sessions)
    ensures RefsOk(Asked(r, h, p, x, deadline, size))
  {
    var b := Asked(r, h, p, x, deadline, size);
    if p in r.clients[h].requests {
      assert EntryOk(r, h, p);
    }
    forall k, q | k in b.clients && q in b.clients[k].requests ensures EntryOk(b, k, q) {
      if k != h || q != p { assert EntryOk(r, k, q); }
    }
    forall q | q in b.sessions ensures QueueOk(b, q) {
      assert QueueOk(r, q);
    }
  }

  lemma RequestStep(r: Reg, h: Handle, p: Peer, x: Ref, deadline: nat, size: nat)
    requires RegOk(r) && Usable(r, h, p, x) && (p != r.me ==> p in r.sessions)
    ensures RegOk(Asked(r, h, p, x, deadline, size))
  {
    hide HeapOk, RefsOk, ClientsOk, OptionsExact;
    var b := Asked(r, h, p, x, deadline, size);
    assert r.me !in r.sessions;
    assert ReqOk(b) by { AskedReq(r, h, p, x, deadline, size); }
    assert ConnOk(b) && ClientsOk(b) && OptionsExact(b.options, b.clients) by {
      hide ConnOk, Usable, Without;
      SameView(r, b);
    }
  }

  lemma AskedReq(r: Reg, h: Handle, p: Peer, x: Ref, deadline: nat, size: nat)
    requires ReqOk(r) && Usable(r, h, p, x) && r.me !in r.sessions && (p != r.me ==> p in r.sessions)
    ensures ReqOk(Asked(r, h, p, x, deadline, size))
  {
    hide RefsOk, LiveOk;
    forall y | y in Asked(r, h, p, x, deadline, size).heap ensures LiveOk(Asked(r, h, p, x, deadline, size), y) {
      AskedLive(r, h, p, x, deadline, size, y);
    }
    AskedRefs(r, h, p, x, deadline, size);
  }

  /** What changes when a request is made. */
  lemma AskedFrame(a: Reg, h: Handle, p: Peer, x: Ref, deadline: nat, size: nat)
    requires h in a.clients && (p != a.me ==> p in a.sessions) && Usable(a, h, p, x)
    ensures var b := Asked(a, h, p, x, deadline, size);
            && b == a.(clients := b.clients, heap := b.heap, sessions := b.sessions)
            && b.clients == a.clients[h := a.clients[h].(requests := a.clients[h].requests[p := x])]
            && b.heap == a.heap[x := Request(h, p, deadline, size, false)] && Listed(b, x)
            && b.sessions.Keys == a.sessions.Keys
            && (p != a.me ==> b.sessions[p].queue == [x] + Without(a.sessions[p].queue, x))
    ensures p != a.me ==> UndoneFrame(a, Dropped(Asked(a, h, p, x, deadline, size), x), h, p, x)
  {
    hide Without, Usable;
    if p != a.me {
      AskedUndone(a, h, p, x, deadline, size);
    }
  }

  /** What has changed when the request was dropped again. */
  ghost predicate UndoneFrame(a: Reg, d: Reg, h: Handle, p: Peer, x: Ref)
    requires h in a.clients
  {
    && d.clients == a.clients[h := a.clients[h].(requests := a.clients[h].requests - {p})]
    && d.sessions.Keys == a.sessions.Keys && d.heap.Keys == a.heap.Keys - {x}
    && d == a.(clients := d.clients, heap := d.heap, sessions := d.sessions)
  }

  lemma AskedUndone(a: Reg, h: Handle, p: Peer, x: Ref, deadline: nat, size: nat)
    requires h in a.clients && p != a.me && p in a.sessions
    ensures UndoneFrame(a, Dropped(Asked(a, h, p, x, deadline, size), x), h, p, x)
  {
    hide Without;
    assert a.clients[h].requests[p := x] - {p} == a.clients[h].requests - {p};
    var b := Asked(a, h, p, x, deadline, size);
    assert Dropped(b, x).heap.Keys == b.heap.Keys - {x};
  }

  /** A request that is too large leaves the tables as if the client had no request for the peer. */
  lemma RefusedStep(a: Reg, h: Handle, p: Peer, x: Ref, deadline: nat, size: nat)
    requires RegOk(a) && Usable(a, h, p, x) && p != a.me && p in a.sessions
    ensures RegOk(Dropped(Asked(a, h, p, x, deadline, size), x))
  {
    RequestStep(a, h, p, x, deadline, size);
    DroppedStep(Asked(a, h, p, x, deadline, size), x);
  }

  // ---- a client sends

  lemma HoldStep(r: Reg, h: Handle, p: Peer)
    requires RegOk(r) && r.held == {} && h in r.clients && p in r.clients[h].requests
    requires p != r.me ==> r.clients[h].requests[p] in r.heap && r.heap[r.clients[h].requests[p]].solicited
    ensures RegOk(r.(clients := r.clients[h := r.clients[h].(requests := r.clients[h].requests - {p})],
                     held := {r.clients[h].requests[p]}))
  {
    var x := r.clients[h].requests[p];
    var b := r.(clients := r.clients[h := r.clients[h].(requests := r.clients[h].requests - {p})], held := {x});
    ListedLive(r, h, p);
    HoldReq(r, b, h, p);
    assert ConnOk(b) && ClientsOk(b) && OptionsExact(b.options, b.clients) by {
      hide HeapOk, RefsOk;
      SameView(r, b);
    }
  }

  lemma HoldReq(r: Reg, b: Reg, h: Handle, p: Peer)
    requires ReqOk(r) && HeldFrom(r, b, h, p)
    ensures ReqOk(b)
  {
    hide HeapOk, RefsOk;
    HoldLive(r, b, h, p);
    HoldRefs(r, b, h, p);
  }

  /** The request of a client for a peer passed to the send handler. */
  ghost predicate HeldFrom(r: Reg, b: Reg, h: Handle, p: Peer) {
    r.held == {} && h in r.clients && p in r.clients[h].requests &&
    var x := r.clients[h].requests[p];
    && x in r.heap && r.heap[x].owner == h && r.heap[x].target == p
    && (p != r.me ==> r.heap[x].solicited)
    && b == r.(clients := r.clients[h := r.clients[h].(requests := r.clients[h].requests - {p})], held := {x})
  }

  lemma HoldLive(r: Reg, b: Reg, h: Handle, p: Peer)
    requires HeapOk(r) && HeldFrom(r, b, h, p)
    ensures HeapOk(b)
  {
    forall y | y in b.heap ensures LiveOk(b, y) {
      assert LiveOk(r, y);
    }
  }

  lemma HoldRefs(r: Reg, b: Reg, h: Handle, p: Peer)
    requires RefsOk(r) && HeldFrom(r, b, h, p)
    ensures RefsOk(b)
  {
    forall k, q | k in b.clients && q in b.clients[k].requests ensures EntryOk(b, k, q) {
      assert EntryOk(r, k, q);
    }
    forall q | q in b.sessions ensures QueueOk(b, q) {
      assert QueueOk(r, q);
    }
  }

  /**
   Why clients must not send unasked: once a send handler holds the request, expiry of that session's
   requests finds every one of them in its client's map exactly when the held one had been solicited.
   */
  lemma UnaskedSend(r: Reg, h: Handle, p: Peer)
    requires RegOk(r) && r.held == {} && h in r.clients && p in r.clients[h].requests && p != r.me
    ensures var x := r.clients[h].requests[p];
            var b := r.(clients := r.clients[h := r.clients[h].(requests := r.clients[h].requests - {p})], held := {x});
            && x in r.heap && p in b.sessions
            && (r.heap[x].solicited <==>
                forall y, now: nat :: y in b.sessions[p].queue && Expired(b.heap, y, now) ==> Listed(b, y))
  {
    hide ConnOk, ClientsOk, HeapOk, RefsOk, OptionsExact;
    var x := r.clients[h].requests[p];
    var b := r.(clients := r.clients[h := r.clients[h].(requests := r.clients[h].requests - {p})], held := {x});
    ListedLive(r, h, p);
    if r.heap[x].solicited {
      HoldStep(r, h, p);
      forall y, now: nat | y in b.sessions[p].queue && Expired(b.heap, y, now) ensures Listed(b, y) {
        QueuedLive(b, p, y);
      }
    } else {
      assert Expired(b.heap, x, r.heap[x].deadline + 1);
    }
  }

  /** The tables after a held request was dequeued and freed. */
  ghost function Released(r: Reg, x: Ref): Reg
    requires x in r.heap && (r.heap[x].target != r.me ==> r.heap[x].target in r.sessions)
  {
    var p := r.heap[x].target;
    r.(sessions := if p == r.me then r.sessions
                   else r.sessions[p := r.sessions[p].(queue := Without(r.sessions[p].queue, x))],
       heap := r.heap - {x},
       held := {})
  }

  lemma ReleaseLive(r: Reg, x: Ref)
    requires ReqOk(r) && r.held == {x} && r.me !in r.sessions
    requires x in r.heap && (r.heap[x].target != r.me ==> r.heap[x].target in r.sessions)
    ensures HeapOk(Released(r, x))
  {
    var b := Released(r, x);
    forall y | y in b.heap ensures LiveOk(b, y) {
      assert LiveOk(r, y);
    }
  }

  lemma ReleaseRefs(r: Reg, x: Ref)
    requires ReqOk(r) && r.held == {x} && r.me !in r.sessions
    requires x in r.heap && (r.heap[x].target != r.me ==> r.heap[x].target in r.sessions)
    ensures RefsOk(Released(r, x))
  {
    var b := Released(r, x);
    forall k, q | k in b.clients && q in b.clients[k].requests ensures EntryOk(b, k, q) {
      assert EntryOk(r, k, q);
      assert LiveOk(r, x);
    }
    forall q | q in b.sessions ensures QueueOk(b, q) {
      assert QueueOk(r, q);
    }
  }

  lemma HeldLive(r: Reg, x: Ref)
    requires RegOk(r) && r.held == {x}
    ensures x in r.heap && (r.heap[x].target != r.me ==> r.heap[x].target in r.sessions) && r.me !in r.sessions
  {
    assert LiveOk(r, x);
  }

  lemma ReleaseStep(r: Reg, x: Ref)
    requires RegOk(r) && r.held == {x}
    ensures x in r.heap && (r.heap[x].target != r.me ==> r.heap[x].target in r.sessions)
    ensures RegOk(Released(r, x))
  {
    hide ConnOk, ClientsOk, HeapOk, RefsOk, OptionsExact;
    HeldLive(r, x);
    ReleaseLive(r, x);
    ReleaseRefs(r, x);
    SameView(r, Released(r, x));
  }

  // ---------------------------------------------------------------------
  // The tables, updated in place
  // ---------------------------------------------------------------------

  class Tables {
    const me: Peer
    var clients: map<Handle, Client>
    var sessions: map<Peer, Session>
    var heap: map<Ref, Request>
    var next: Ref
    var allOptions: set<Flag>
    ghost var held: set<Ref>

    ghost function Snap(): Reg
      reads this
    {
      Reg(me, clients, sessions, heap, held, allOptions)
    }

    ghost predicate Valid()
      reads this
    {
      RegOk(Snap()) && forall x :: x in heap ==> x < next
    }

    constructor (me: Peer)
      ensures Valid() && this.me == me && held == {} && clients == map[] && sessions == map[]
    {
      this.me := me;
      clients, sessions, heap, next, allOptions, held := map[], map[], map[], 0, {}, {};
    }

    /** Is the client interested in messages of this type? */
    method TypeMatch(types: seq<MsgType>, t: MsgType) returns (b: bool)
      ensures b == Handles(types, t)
    {
      if |types| == 0 {
        return true;
      }
      for i := 0 to |types|
        invariant t !in types[..i]
      {
        if t == types[i] {
          return true;
        }
      }
      assert types[..|types|] == types;
      return false;
    }

    /** Tell one client about a change of one neighbour. */
    method NotifyClient(h: Handle, p: Peer, was: Option<set<MsgType>>, now: Option<set<MsgType>>)
      requires h in clients && p != me
      requires p in clients[h].connected <==> TypeMap.Matches(was, clients[h].types)
      modifies this`clients
      ensures clients == old(clients)[h := Notified(old(clients[h]), p,
                TypeMap.Matches(was, old(clients[h]).types), TypeMap.Matches(now, old(clients[h]).types))]
    {
      var c := clients[h];
      var oldMatch := TypeMap.TestMatch(was, c.types);
      var newMatch := TypeMap.TestMatch(now, c.types);
      if oldMatch == newMatch {
        assert oldMatch == (p in c.connected);
        return;
      }
      if !oldMatch {
        assert p !in c.connected;
        clients := clients[h := c.(connected := c.connected + {p}, outbox := c.outbox + [Connect(p)])];
      } else {
        assert p in c.connected;
        clients := clients[h := c.(connected := c.connected - {p}, outbox := c.outbox + [Disconnect(p)])];
      }
    }

    /** Tell all clients about a change of one neighbour. */
    method NotifyClients(p: Peer, was: Option<set<MsgType>>, now: Option<set<MsgType>>)
      requires p != me
      requires forall h :: h in clients ==> (p in clients[h].connected <==> TypeMap.Matches(was, clients[h].types))
      modifies this`clients
      ensures clients == NotifiedAll(old(clients), p, was, now)
    {
      var todo := clients.Keys;
      ghost var target := NotifiedAll(clients, p, was, now);
      while todo != {}
        invariant todo <= clients.Keys == old(clients.Keys)
        invariant forall h :: h in clients ==> clients[h] == if h in todo then old(clients)[h] else target[h]
        decreases todo
      {
        var h :| h in todo;
        NotifyClient(h, p, was, now);
        todo := todo - {h};
      }
    }

    /** A key exchange completed. */
    method SessionCreate(p: Peer)
      requires Valid() && p != me && p !in sessions
      modifies this`sessions, this`clients
      ensures Valid()
      ensures sessions == old(sessions)[p := Session({}, [])]
      ensures clients == NotifiedAll(old(clients), p, None, Some({}))
    {
      hide ConnOk, ClientsOk, HeapOk, RefsOk, OptionsExact;
      ghost var a := Snap();
      sessions := sessions[p := Session({}, [])];
      ConnAt(a, p);
      NotifyClients(p, None, Some({}));
      TmapStep(a, Snap(), p);
    }

    /** A peer announced a new type map; a malformed announcement carries none. */
    method SetTypemap(p: Peer, nmap: Option<set<MsgType>>)
      requires Valid() && p != me
      modifies this`sessions, this`clients
      ensures Valid()
      ensures nmap.None? || p !in old(sessions) ==> sessions == old(sessions) && clients == old(clients)
      ensures nmap.Some? && p in old(sessions) ==>
                && sessions == old(sessions)[p := old(sessions)[p].(tmap := nmap.value)]
                && clients == NotifiedAll(old(clients), p, Some(old(sessions)[p].tmap), nmap)
    {
      hide ConnOk, ClientsOk, HeapOk, RefsOk, OptionsExact;
      if nmap == None || p !in sessions {
        return;
      }
      ghost var a := Snap();
      ConnAt(a, p);
      NotifyClients(p, Some(sessions[p].tmap), nmap);
      sessions := sessions[p := sessions[p].(tmap := nmap.value)];
      TmapStep(a, Snap(), p);
    }

    /** A message of some type arrived from (or goes to) a peer: its type map must contain it. */
    method AddToTypemap(p: Peer, t: MsgType)
      requires Valid() && (p == me || p in sessions)
      modifies this`sessions, this`clients
      ensures Valid()
      ensures p == me ==> sessions == old(sessions) && clients == old(clients)
      ensures p != me ==>
                && sessions == old(sessions)[p := old(sessions)[p].(tmap := old(sessions)[p].tmap + {t})]
                && clients ==
                     NotifiedAll(old(clients), p, Some(old(sessions)[p].tmap), Some(old(sessions)[p].tmap + {t}))
    {
      if p == me {
        return;
      }
      assert p in sessions;
      ghost var a := Snap();
      ConnAt(a, p);
      var known := TypeMap.TestMatch(Some(sessions[p].tmap), [t]);
      if known {
        assert sessions[p].tmap + {t} == sessions[p].tmap;
        return;
      }
      var nmap := TypeMap.Extend(Some(sessions[p].tmap), [t]);
      assert nmap == sessions[p].tmap + {t};
      NotifyClients(p, Some(sessions[p].tmap), Some(nmap));
      sessions := sessions[p := sessions[p].(tmap := nmap)];
      TmapStep(a, Snap(), p);
    }

    // ---- requests shared between a client and a session

    /** Take a request out of its session's queue; loopback requests are in none. */
    method DequeueRequest(x: Ref)
      requires x in heap && (heap[x].target != me ==> heap[x].target in sessions)
      modifies this`sessions
      ensures var p := heap[x].target;
              sessions == if p == me then old(sessions) else
                old(sessions)[p := old(sessions)[p].(queue := Without(old(sessions)[p].queue, x))]
    {
      var p := heap[x].target;
      if p == me {
        return;
      }
      assert p in sessions;
      sessions := sessions[p := sessions[p].(queue := Without(sessions[p].queue, x))];
    }

    /** Permanently fail a request: its client forgets it and it is freed. */
    method RejectRequest(x: Ref)
      requires x in heap && Listed(Snap(), x)
      modifies this`clients, this`heap
      ensures heap == old(heap) - {x}
      ensures var q := old(heap)[x]; var c := old(clients)[q.owner];
              clients == old(clients)[q.owner := c.(requests := c.requests - {q.target})]
    {
      var h, p := heap[x].owner, heap[x].target;
      assert p in clients[h].requests && clients[h].requests[p] == x;
      clients := clients[h := clients[h].(requests := clients[h].requests - {p})];
      heap := heap - {x};
    }

    /** Dequeue and reject, in one. */
    method DropRequest(x: Ref)
      requires Valid() && x in heap && Listed(Snap(), x)
      modifies this`clients, this`sessions, this`heap
      ensures Snap() == old(Dropped(Snap(), x))
      ensures Valid() && Drained(old(Snap()), Snap(), old(heap)[x].target)
    {
      hide ConnOk, ClientsOk, HeapOk, RefsOk, OptionsExact, Drained;
      ghost var a := Snap();
      DroppedStep(a, x);
      DequeueRequest(x);
      RejectRequest(x);
      assert Snap() == Dropped(a, x);
    }

    /** Tell the client that it may send, or drop the request if the peer is out of its reach now. */
    method SolicitRequest(x: Ref)
      requires Valid() && x in heap && Listed(Snap(), x)
      modifies this`clients, this`sessions, this`heap
      ensures Valid() && Drained(old(Snap()), Snap(), old(heap)[x].target)
      ensures var q := old(heap)[x]; var c := old(clients)[q.owner];
              if q.target in c.connected
              then Snap() == old(Snap()).(
                clients := old(clients)[q.owner := c.(outbox := c.outbox + [SendReady(q.target)])])
              else Snap() == old(Dropped(Snap(), x))
    {
      hide ConnOk, ClientsOk, HeapOk, RefsOk, OptionsExact, Drained;
      var h, p := heap[x].owner, heap[x].target;
      ghost var a := Snap();
      if p !in clients[h].connected {
        ConnectedHasSession(a, h, p);
        assert p != me;
        DropRequest(x);
        return;
      }
      clients := clients[h := clients[h].(outbox := clients[h].outbox + [SendReady(p)])];
      ReadyStep(a, h, p);
    }

    method DiscardIfExpired(p: Peer, pos: Ref, now: nat, ghost before: seq<Ref>, ghost after: seq<Ref>)
      requires Valid() && p in sessions && sessions[p].queue == before + [pos] + after
      modifies this`clients, this`sessions, this`heap
      ensures Valid() && Drained(old(Snap()), Snap(), p) && p in sessions
      ensures pos in old(heap)
      ensures sessions[p].queue == before + (if Expired(old(heap), pos, now) then [] else [pos]) + after
      ensures heap == if Expired(old(heap), pos, now) then old(heap) - {pos} else old(heap)
      ensures NothingTold(old(clients), clients)
    {
      hide ConnOk, ClientsOk, HeapOk, RefsOk, OptionsExact, Drained;
      assert pos in sessions[p].queue;
      QueuedLive(Snap(), p, pos);
      DrainedRefl(Snap(), p);
      if heap[pos].deadline < now && !heap[pos].solicited {
        WithoutMiddle(before, pos, after);
        DropRequest(pos);
        assert before + [] == before;
      }
    }

    /** Discard requests that expired before being solicited. */
    method DiscardExpired(p: Peer, now: nat)
      requires Valid() && p in sessions
      modifies this`clients, this`sessions, this`heap
      ensures Valid() && Drained(old(Snap()), Snap(), p) && p in sessions
      ensures sessions[p].queue == Unexpired(old(sessions)[p].queue, old(heap), now)
      ensures forall x :: x in heap ==> x in old(heap) && heap[x] == old(heap)[x]
      ensures NothingTold(old(clients), clients)
    {
      hide ConnOk, ClientsOk, HeapOk, RefsOk, OptionsExact, Drained, Unexpired, NothingTold;
      NothingToldRefl(clients);
      var all := sessions[p].queue;
      DrainedRefl(Snap(), p);
      UnexpiredPrefix(all, heap, now, 0);
      for i := 0 to |all|
        invariant Valid() && Drained(old(Snap()), Snap(), p) && p in sessions
        invariant sessions[p].queue == Unexpired(all[..i], old(heap), now) + all[i..]
        invariant forall x :: x in heap ==> x in old(heap) && heap[x] == old(heap)[x]
        invariant NothingTold(old(clients), clients)
      {
        ghost var kept := Unexpired(all[..i], old(heap), now);
        assert sessions[p].queue == kept + [all[i]] + all[i + 1..];
        UnexpiredPrefix(all, old(heap), now, i + 1);
        ghost var a := Snap();
        DiscardIfExpired(p, all[i], now, kept, all[i + 1..]);
        DrainedTrans(old(Snap()), a, Snap(), p);
        NothingToldTrans(old(clients), a.clients, clients);
      }
      assert all[..|all|] == all;
    }

    /** Solicit as many requests as fit into one encrypted message. */
    method SolicitMessages(p: Peer, now: nat)
      requires Valid() && p in sessions
      modifies this`clients, this`sessions, this`heap
      ensures Valid() && Drained(old(Snap()), Snap(), p) && p in sessions
      ensures Solicited(old(Snap()), Snap(), p, now)
    {
      hide ConnOk, ClientsOk, HeapOk, RefsOk, OptionsExact, Drained, Unexpired, NothingTold, Grants, Affordable, Marked;
      hide Sifted, Unreachable;
      DiscardExpired(p, now);
      NoGrants(old(clients), clients, p, old(heap));
      NothingMarked(old(heap), heap);
      ghost var a, kept := old(Snap()), sessions[p].queue;
      ghost var span := Affordable(kept, old(heap), 0);
      var rest := sessions[p].queue;
      QueueNoDup(Snap(), p);
      var total: nat := 0;
      ghost var done := [];
      SiftedNone(kept);
      assert UnreachableOf(a, done) == {};
      while rest != []
        invariant Valid() && Drained(a, Snap(), p) && p in sessions
        invariant forall x :: x in rest ==> x in sessions[p].queue && x !in done
        invariant NoDup(rest) && span == done + Affordable(rest, old(heap), total)
        invariant Marked(old(heap), heap, done) && Grants(old(clients), clients, p, done, old(heap))
        invariant sessions[p].queue == Sifted(kept, UnreachableOf(a, done))
        decreases |rest|
      {
        var x := rest[0];
        ghost var b := Snap();
        QueuedLive(b, p, x);
        MarkedAt(old(heap), heap, done, x);
        AffordableStep(rest, old(heap), total);
        if total + heap[x].size > MAX_ENCRYPTED {
          break;
        }
        rest := rest[1..];
        total := total + heap[x].size;
        SameReach(a, b, p, x);
        SiftStep(kept, a, done, x);
        Consider(x, p, old(clients), done, old(heap));
        MarkedStep(old(heap), b.heap, done, heap, x);
        done := done + [x];
        DrainedTrans(a, b, Snap(), p);
      }
      AffordableStep(rest, old(heap), total);
      assert span == done;
      HeapFollowsQueue(a, Snap(), p);
    }

    /** Solicit one request, unless that was done before. */
    method Consider(x: Ref, p: Peer, ghost was: map<Handle, Client>, ghost done: seq<Ref>,
                    ghost before: map<Ref, Request>)
      requires Valid() && p in sessions && x in sessions[p].queue && x in heap && x in before && heap[x] == before[x]
      requires x !in done && Grants(was, clients, p, done, before)
      modifies this`clients, this`sessions, this`heap
      ensures Valid() && Drained(old(Snap()), Snap(), p) && p in sessions
      ensures Grants(was, clients, p, done + [x], before)
      ensures x in heap <==> !Unreachable(old(Snap()), x)
      ensures x in heap ==> heap[x] == old(heap)[x].(solicited := true)
      ensures forall y :: y in heap && y != x ==> y in old(heap) && heap[y] == old(heap)[y]
      ensures sessions[p].queue == if x in heap then old(sessions)[p].queue else Without(old(sessions)[p].queue, x)
    {
      hide ConnOk, ClientsOk, HeapOk, RefsOk, OptionsExact, Drained, Grants;
      ghost var b := Snap();
      QueuedLive(b, p, x);
      if heap[x].solicited {
        GrantSkip(b, was, p, done, before, x);
        DrainedRefl(b, p);
        return;
      }
      SolicitOne(x);
      GrantStep(b, clients, was, p, done, before, x, b.heap[x].owner, x in heap);
    }

    /** Mark a request as solicited, then solicit it. */
    method SolicitOne(x: Ref)
      requires Valid() && x in heap && Listed(Snap(), x) && heap[x].target in sessions
      modifies this`clients, this`sessions, this`heap
      ensures Valid() && Drained(old(Snap()), Snap(), old(heap)[x].target)
      ensures x in heap <==> old(heap)[x].target in old(clients)[old(heap)[x].owner].connected
      ensures x in heap ==> heap[x] == old(heap)[x].(solicited := true)
      ensures forall y :: y in heap && y != x ==> y in old(heap) && heap[y] == old(heap)[y]
      ensures var p := old(heap)[x].target;
              && p in sessions
              && sessions[p].queue ==
                   if x in heap then old(sessions)[p].queue else Without(old(sessions)[p].queue, x)
      ensures var o, p := old(heap)[x].owner, old(heap)[x].target;
              && o in clients && clients == old(clients)[o := clients[o]]
              && clients[o] == if x in heap then old(clients)[o].(outbox := old(clients)[o].outbox + [SendReady(p)])
                               else old(clients)[o].(requests := old(clients)[o].requests - {p})
    {
      hide ConnOk, ClientsOk, HeapOk, RefsOk, OptionsExact, Drained;
      ghost var a := Snap();
      MarkStep(a, x);
      MeHasNoSession(a);
      heap := heap[x := heap[x].(solicited := true)];
      ghost var b := Snap();
      assert Listed(b, x);
      SolicitRequest(x);
      DrainedTrans(a, b, Snap(), a.heap[x].target);
    }

    // ---- message delivery

    /** Offer a message to all clients. */
    method SendToAll(p: Peer, t: MsgType, flag: Flag)
      requires forall h :: h in clients && Handles(clients[h].types, t) ==> p in clients[h].connected
      modifies this`clients
      ensures clients == CopiedAll(old(clients), p, t, flag)
    {
      var todo := clients.Keys;
      ghost var target := CopiedAll(clients, p, t, flag);
      while todo != {}
        invariant todo <= clients.Keys == old(clients.Keys)
        invariant forall h :: h in clients ==> clients[h] == if h in todo then old(clients)[h] else target[h]
        decreases todo
      {
        var h :| h in todo;
        todo := todo - {h};
        var c := clients[h];
        var tm := TypeMatch(c.types, t);
        if !(flag in c.options || (flag == FullInbound && tm)) {
          continue;
        }
        if flag == HdrInbound && (FullInbound in c.options || tm) {
          continue;
        }
        if flag == HdrOutbound && FullOutbound in c.options {
          continue;
        }
        assert FullInbound !in c.options || !tm || p in c.connected;
        clients := clients[h := c.(outbox := c.outbox + [Traffic(p, t, flag)])];
      }
    }

    /** Deliver one copy (full or header, inbound or outbound) of a peer-to-peer message. */
    method DeliverMessage(p: Peer, t: MsgType, flag: Flag)
      requires Valid() && (p == me || p in sessions)
      modifies this`clients, this`sessions
      ensures Valid()
      ensures Snap() == Delivered(old(Snap()), p, t, flag)
    {
      hide ConnOk, ClientsOk, HeapOk, RefsOk, OptionsExact;
      if !(flag in allOptions || flag == FullInbound) {
        NobodyWants(Snap(), p, t, flag);
        return;
      }
      ghost var a := Snap();
      AddToTypemap(p, t);
      ghost var b := Snap();
      assert b == Extended(a, p, t);
      HandlersInTouch(b, p, t);
      SendToAll(p, t, flag);
      CopiedAllOk(b, p, t, flag);
    }

    /** A message arrived from a peer. */
    method DeliverInbound(p: Peer, t: MsgType)
      requires Valid() && (p == me || p in sessions)
      modifies this`clients, this`sessions
      ensures Valid() && Told(old(Snap()), Snap())
      ensures Snap() == Delivered(Delivered(old(Snap()), p, t, FullInbound), p, t, HdrInbound)
    {
      hide RegOk;
      ghost var a := Snap();
      DeliverMessage(p, t, FullInbound);
      ghost var b := Snap();
      DeliveredTold(a, p, t, FullInbound);
      DeliverMessage(p, t, HdrInbound);
      DeliveredTold(b, p, t, HdrInbound);
    }

    /** A client's message goes to a peer. */
    method DeliverOutbound(p: Peer, t: MsgType)
      requires Valid() && (p == me || p in sessions)
      modifies this`clients, this`sessions
      ensures Valid() && Told(old(Snap()), Snap())
      ensures Snap() == Delivered(Delivered(old(Snap()), p, t, FullOutbound), p, t, HdrOutbound)
    {
      hide RegOk;
      ghost var a := Snap();
      DeliverMessage(p, t, FullOutbound);
      ghost var b := Snap();
      DeliveredTold(a, p, t, FullOutbound);
      DeliverMessage(p, t, HdrOutbound);
      DeliveredTold(b, p, t, HdrOutbound);
    }

    // ---- end of a session

    /** We are no longer connected: fail the queued requests, tell the clients, forget the session. */
    method SessionEnd(p: Peer)
      requires Valid() && held == {} && p != me
      modifies this`clients, this`sessions, this`heap
      ensures Valid()
      ensures sessions == old(sessions) - {p}
      ensures clients.Keys == old(clients.Keys)
      ensures forall h :: h in clients ==>
                && clients[h].types == old(clients)[h].types && clients[h].options == old(clients)[h].options
                && clients[h].asked == old(clients)[h].asked
                && clients[h].connected == old(clients)[h].connected - {p}
                && clients[h].requests == old(clients)[h].requests - {p}
                && clients[h].outbox ==
                     old(clients)[h].outbox + (if p in old(clients)[h].connected then [Disconnect(p)] else [])
    {
      hide ConnOk, ClientsOk, HeapOk, RefsOk, OptionsExact, Drained;
      if p !in sessions {
        AbsentPeer(Snap(), p);
        return;
      }
      ghost var a := Snap();
      DrainedRefl(a, p);
      while sessions[p].queue != []
        invariant Valid() && p in sessions && Drained(a, Snap(), p)
        invariant NothingTold(a.clients, clients)
        decreases |sessions[p].queue|
      {
        var x := sessions[p].queue[0];
        ghost var b := Snap();
        QueuedLive(b, p, x);
        assert x !in held by { DrainedHeld(a, b, p); }
        DropRequest(x);
        DrainedTrans(a, b, Snap(), p);
        WithoutShrinks(b.sessions[p].queue, x);
      }
      ghost var b := Snap();
      EmptyQueue(b, p);
      ConnAt(b, p);
      NotifyClients(p, Some(sessions[p].tmap), None);
      sessions := sessions - {p};
      TmapStep(b, Snap(), p);
      SessionGone(a, b, p);
    }

    // ---- clients come and go

    /** A client introduces itself: it is told of all matching sessions. */
    method ClientInit(h: Handle, types: seq<MsgType>, options: set<Flag>) returns (ok: bool)
      requires Valid()
      modifies this`clients, this`allOptions
      ensures Valid()
      ensures ok <==> h !in old(clients)
      ensures !ok ==> clients == old(clients)
      ensures ok ==> clients.Keys == old(clients.Keys) + {h}
      ensures ok ==> forall k :: k in old(clients) ==> clients[k] == old(clients)[k]
      ensures ok ==> clients[h].types == types && clients[h].options == options
      ensures ok ==> clients[h].requests == map[] && !clients[h].asked
      ensures ok ==> [InitReply] <= clients[h].outbox
    {
      hide ConnOk, ClientsOk, HeapOk, RefsOk, OptionsExact, ClientOk;
      if h in clients {
        return false;
      }
      ghost var a := Snap();
      allOptions := allOptions + options;
      clients := clients[h := Client(types, options, map[], false, {me}, [InitReply])];
      NewClientOk(me, clients[h]);
      MeHasNoSession(a);
      var todo := sessions.Keys;
      while todo != {}
        invariant todo <= sessions.Keys && allOptions == old(allOptions) + options
        invariant clients.Keys == old(clients.Keys) + {h}
        invariant forall k :: k in old(clients) ==> clients[k] == old(clients)[k]
        invariant clients[h].types == types && clients[h].options == options
        invariant clients[h].requests == map[] && !clients[h].asked
        invariant ClientOk(me, clients[h]) && [InitReply] <= clients[h].outbox
        invariant forall p :: p in clients[h].connected <==>
          p == me || (p in sessions && p !in todo && TypeMap.Matches(Some(sessions[p].tmap), types))
        decreases todo
      {
        var p :| p in todo;
        NotifiedOk(me, clients[h], p, false, TypeMap.Matches(Some(sessions[p].tmap), types));
        NotifyClient(h, p, None, Some(sessions[p].tmap));
        todo := todo - {p};
      }
      assert Snap() == a.(clients := clients, options := a.options + clients[h].options);
      assert ConnExact(Snap(), clients[h]);
      ClientAdded(a, Snap(), h);
      return true;
    }

    /** A client went away: its requests are withdrawn. */
    method ClientDisconnect(h: Handle)
      requires Valid() && held == {}
      modifies this`clients, this`sessions, this`heap, this`allOptions
      ensures Valid()
      ensures clients.Keys == old(clients.Keys) - {h}
      ensures forall k :: k in clients ==> clients[k] == old(clients)[k]
      ensures sessions.Keys == old(sessions.Keys)
      ensures forall p :: p in sessions ==> sessions[p].tmap == old(sessions)[p].tmap
    {
      hide ConnOk, ClientsOk, HeapOk, RefsOk, OptionsExact, Drained;
      if h !in clients {
        return;
      }
      while clients[h].requests != map[]
        invariant Valid() && held == {} && h in clients
        invariant clients.Keys == old(clients.Keys)
        invariant forall k :: k in clients && k != h ==> clients[k] == old(clients)[k]
        invariant sessions.Keys == old(sessions.Keys)
        invariant forall p :: p in sessions ==> sessions[p].tmap == old(sessions)[p].tmap
        decreases |clients[h].requests|
      {
        Withdraw(h);
      }
      ghost var b := Snap();
      assert clients[h].requests == map[];
      clients := clients - {h};
      RecalculateOptions();
      ClientRemoved(b, Snap(), h);
    }

    /** One of the client's requests is withdrawn. */
    method Withdraw(h: Handle)
      requires Valid() && held == {} && h in clients && clients[h].requests != map[]
      modifies this`clients, this`sessions, this`heap
      ensures Valid() && clients.Keys == old(clients.Keys) && |clients[h].requests| < |old(clients)[h].requests|
      ensures forall k :: k in clients && k != h ==> clients[k] == old(clients)[k]
      ensures sessions.Keys == old(sessions.Keys)
      ensures forall p :: p in sessions ==> sessions[p].tmap == old(sessions)[p].tmap
    {
      hide ConnOk, ClientsOk, HeapOk, RefsOk, OptionsExact, Drained, Without;
      var p :| p in clients[h].requests;
      var x := clients[h].requests[p];
      ListedLive(Snap(), h, p);
      FewerRequests(clients[h].requests, p);
      DropRequest(x);
    }

    method RecalculateOptions()
      modifies this`allOptions
      ensures OptionsExact(allOptions, clients)
    {
      allOptions := {};
      var todo := clients.Keys;
      while todo != {}
        invariant todo <= clients.Keys
        invariant forall f :: f in allOptions <==> exists k :: k in clients && k !in todo && f in clients[k].options
        decreases todo
      {
        var k :| k in todo;
        OptionsStep(allOptions, clients, todo, k);
        allOptions := allOptions + clients[k].options;
        todo := todo - {k};
      }
    }

    // ---- clients ask to send and send

    /** The client's request for the peer, taken out of its queue, or a new one. */
    method FindOrCreateRequest(h: Handle, p: Peer) returns (x: Ref)
      requires Valid() && h in clients && (p != me ==> p in sessions)
      modifies this`clients, this`sessions, this`heap, this`next
      ensures Usable(old(Snap()), h, p, x)
      ensures clients == old(clients)[h := old(clients)[h].(requests := old(clients)[h].requests[p := x])]
      ensures sessions == if p == me then old(sessions) else
                            old(sessions)[p := old(sessions)[p].(queue := Without(old(sessions)[p].queue, x))]
      ensures x in heap && heap == old(heap)[x := heap[x]]
      ensures forall y :: y in heap ==> y < next
    {
      hide ConnOk, ClientsOk, HeapOk, RefsOk, OptionsExact;
      if p in clients[h].requests {
        x := clients[h].requests[p];
        ListedLive(Snap(), h, p);
        DequeueRequest(x);
        assert clients[h].requests[p := x] == clients[h].requests;
      } else {
        x := next;
        FreshNotQueued(Snap(), p, x);
        next := next + 1;
        heap := heap[x := Request(h, p, 0, 0, false)];
        clients := clients[h := clients[h].(requests := clients[h].requests[p := x])];
        assert p != me ==> sessions[p := sessions[p].(queue := Without(sessions[p].queue, x))] == sessions;
      }
    }

    /**
     A client asks for permission to send.  Its request for that peer is created
     or, if there is one already, replaced; `queued` says that it now heads the
     session's queue.
     */
    method SendRequest(h: Handle, p: Peer, deadline: nat, size: nat) returns (queued: bool)
      requires Valid() && held == {}
      modifies this`clients, this`sessions, this`heap, this`next
      ensures Valid()
      ensures clients.Keys == old(clients.Keys) && sessions.Keys == old(sessions.Keys)
      ensures forall k :: k in clients ==>
                clients[k].types == old(clients)[k].types && old(clients)[k].outbox <= clients[k].outbox
      ensures queued <==> h in old(clients) && p != me && p in old(clients)[h].connected && size <= MAX_ENCRYPTED
      ensures queued ==>
                && p in sessions && p in clients[h].requests
                && var x := clients[h].requests[p];
                   && x in heap && heap[x] == Request(h, p, deadline, size, false)
                   && sessions[p].queue == [x] + Without(old(sessions)[p].queue, x)
                   && clients[h] == old(clients)[h].(asked := true, requests := old(clients)[h].requests[p := x])
      ensures !queued && p != me && h in old(clients) && p in old(clients)[h].connected ==> p !in clients[h].requests
      ensures h !in old(clients) ==> Snap() == old(Snap())
      ensures h in old(clients) ==> clients[h].asked
      ensures h in old(clients) && p != me && p !in old(clients)[h].connected ==>
                Snap() == old(Snap()).(clients := old(clients)[h := old(clients)[h].(asked := true)])
      ensures forall k :: k in clients && k != h ==> clients[k] == old(clients)[k]
      // loopback requests are granted at once
      ensures h in old(clients) && p == me ==>
                && me in clients[h].requests && clients[h].requests[me] in heap
                && heap[clients[h].requests[me]] == Request(h, me, deadline, size, false)
                && clients[h].outbox == old(clients)[h].outbox + [SendReady(me)]
    {
      hide ConnOk, ClientsOk, HeapOk, RefsOk, OptionsExact, Drained, Asked, Parked, Dropped, Usable;
      if h !in clients {
        return false;
      }
      NoteAsk(h);
      if p != me && p !in clients[h].connected {
        return false;
      }
      ghost var a := Snap();
      ConnectedHasSession(a, h, p);
      var x := MakeRequest(h, p, deadline, size);
      AskedFrame(a, h, p, x, deadline, size);
      if p == me {
        GrantLoopback(x, a);
        return false;
      }
      queued := QueueRequest(x, a);
    }

    /** A client's first request creates its request map. */
    method NoteAsk(h: Handle)
      requires Valid() && h in clients
      modifies this`clients
      ensures Valid() && clients == old(clients)[h := old(clients)[h].(asked := true)]
    {
      hide ConnOk, ClientsOk, HeapOk, RefsOk, OptionsExact;
      ghost var a := Snap();
      clients := clients[h := clients[h].(asked := true)];
      SameView(a, Snap());
      ReqFrame(a, Snap());
    }

    /** The client's request for the peer as it is now, not queued. */
    method MakeRequest(h: Handle, p: Peer, deadline: nat, size: nat) returns (x: Ref)
      requires Valid() && h in clients && (p != me ==> p in sessions)
      modifies this`clients, this`sessions, this`heap, this`next
      ensures Usable(old(Snap()), h, p, x)
      ensures Snap() == if p == me then Asked(old(Snap()), h, p, x, deadline, size)
                        else Parked(old(Snap()), h, p, x, deadline, size)
      ensures x in heap && heap[x] == Request(h, p, deadline, size, false)
      ensures forall y :: y in heap ==> y < next
    {
      hide RegOk;
      x := FindOrCreateRequest(h, p);
      heap := heap[x := Request(h, p, deadline, size, false)];
    }

    /** A loopback request is satisfied at once; `a` are the tables before the request was made. */
    method GrantLoopback(x: Ref, ghost a: Reg)
      requires x in heap && heap[x].target == me
      requires var q := heap[x];
               && RegOk(a) && a.me == me && Usable(a, q.owner, me, x)
               && Snap() == Asked(a, q.owner, me, x, q.deadline, q.size) && !q.solicited
      requires forall y :: y in heap ==> y < next
      modifies this`clients, this`sessions, this`heap
      ensures Valid() && sessions == a.sessions && heap == old(heap)
      ensures var h := heap[x].owner;
              clients == old(clients)[h := old(clients)[h].(outbox := old(clients)[h].outbox + [SendReady(me)])]
    {
      hide ConnOk, ClientsOk, HeapOk, RefsOk, OptionsExact, Drained;
      var q := heap[x];
      RequestStep(a, q.owner, me, x, q.deadline, q.size);
      ConnectedHasSession(Snap(), q.owner, me);
      SolicitRequest(x);
    }

    /** Queue a request of a client for its peer; `a` are the tables before the request was made. */
    method QueueRequest(x: Ref, ghost a: Reg) returns (queued: bool)
      requires x in heap && !heap[x].solicited
      requires var q := heap[x];
               && RegOk(a) && Usable(a, q.owner, q.target, x) && q.target != me && q.target in a.sessions
               && Snap() == Parked(a, q.owner, q.target, x, q.deadline, q.size)
      modifies this`clients, this`sessions, this`heap
      ensures RegOk(Snap()) && forall y :: y in heap ==> y in old(heap)
      ensures queued <==> old(heap)[x].size <= MAX_ENCRYPTED
      ensures var q := old(heap)[x];
              Snap() == if queued then Asked(a, q.owner, q.target, x, q.deadline, q.size)
                        else Dropped(Asked(a, q.owner, q.target, x, q.deadline, q.size), x)
    {
      hide ConnOk, ClientsOk, HeapOk, RefsOk, OptionsExact;
      var p := heap[x].target;
      ghost var q := heap[x];
      RequestStep(a, q.owner, p, x, q.deadline, q.size);
      assert p in sessions;
      if heap[x].size > MAX_ENCRYPTED {
        ParkedDropped(a, q.owner, p, x, q.deadline, q.size);
        RefusedStep(a, q.owner, p, x, q.deadline, q.size);
        RejectRequest(x);
        return false;
      }
      sessions := sessions[p := sessions[p].(queue := [x] + sessions[p].queue)];
      assert sessions == Asked(a, q.owner, p, x, q.deadline, q.size).sessions;
      return true;
    }

    /** A client sends: its request for the peer, if it still has one, passes to the send handler. */
    method SendBegin(h: Handle, p: Peer) returns (x: Option<Ref>)
      requires Valid() && held == {}
      // clients only send after they were told to; the code looks the request up without checking for its map
      requires h in clients ==> clients[h].asked
      requires h in clients && p in clients[h].requests && p != me ==> heap[clients[h].requests[p]].solicited
      modifies this`clients, this`held
      ensures Valid()
      ensures x.Some? <==> h in old(clients) && p in old(clients)[h].requests
      ensures x.None? ==> clients == old(clients) && held == {}
      ensures x.Some? ==>
                && clients == old(clients)[h := old(clients)[h].(requests := old(clients)[h].requests - {p})]
                && held == {x.value} && x.value == old(clients)[h].requests[p]
                && x.value in heap && heap[x.value].target == p && (p != me ==> p in sessions)
    {
      hide ConnOk, ClientsOk, HeapOk, RefsOk, OptionsExact;
      if h !in clients || p !in clients[h].requests {
        return None;
      }
      var r := clients[h].requests[p];
      ListedLive(Snap(), h, p);
      HoldStep(Snap(), h, p);
      clients := clients[h := clients[h].(requests := clients[h].requests - {p})];
      held := {r};
      return Some(r);
    }

    /** The send handler is done: the request leaves its queue and is freed. */
    method SendEnd(x: Ref)
      requires Valid() && held == {x}
      modifies this`sessions, this`heap, this`held
      ensures Valid() && x in old(heap)
      ensures old(heap)[x].target != me ==> old(heap)[x].target in old(sessions)
      ensures Snap() == old(Released(Snap(), x))
    {
      hide ConnOk, ClientsOk, HeapOk, RefsOk, OptionsExact;
      ReleaseStep(Snap(), x);
      if heap[x].target != me {
        DequeueRequest(x);
      }
      heap := heap - {x};
      held := {};
    }
  }
}
