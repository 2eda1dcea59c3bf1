/**
 The core service as one system: the tables of clients and sessions, our own
 type map, and one key exchange with its transmission queues per neighbour.
 Everything that can happen to the service is an event; `Run` shows that every
 state reachable by events keeps the invariant `Valid`.
 */
module CoreService {
  import opened CoreTypes
  import TypeMap
  import R = Registry
  import T = Transmission
  import K = KeyExchange
  import W = ReplayWindow

  /** What can happen to the exchange with one neighbour: lookups, messages, timers, the transport service. */
  datatype PeerEvent =
    | LookupFailed
    | LookupEnded
    | LookupFound(extractable: bool)
    | KeyArrived(key: K.SetKey)
    | PingArrived(ping: K.Probe)
    | PongArrived(pong: K.Probe)
    | EncryptedArrived(msg: K.Encrypted)
    | RetryDue
    | RekeyDue
    | KeepAliveDue(silent: bool)
    | TransportReady(taken: bool)
    | CorkDue
    | TypemapDue(size: nat)

  /** One message of a client's transmission. */
  datatype Outgoing = Outgoing(mtype: MsgType, id: nat, size: nat, deadline: nat)

  datatype Event =
    | PeerConnected(peer: Peer, world: T.World)
    | PeerDisconnected(peer: Peer)
    | OfPeer(peer: Peer, what: PeerEvent)
    | ClientArrives(client: Handle, types: seq<MsgType>, options: set<Flag>, mapSize: nat)
    | ClientLeaves(client: Handle, mapSize: nat)
    | ClientAsks(client: Handle, peer: Peer, deadline: nat, size: nat)
    | ClientSends(client: Handle, peer: Peer, msgs: seq<Outgoing>)

  // ---------------------------------------------------------------------
  // The types that clients registered, counted
  // ---------------------------------------------------------------------

  ghost function AllTypes(cs: map<Handle, Client>): multiset<MsgType> {
    if cs == map[] then multiset{} else
      var h :| h in cs;
      multiset(cs[h].types) + AllTypes(cs - {h})
  }

  lemma {:induction false} AllTypesWithout(cs: map<Handle, Client>, h: Handle)
    requires h in cs
    ensures AllTypes(cs) == multiset(cs[h].types) + AllTypes(cs - {h})
    decreases |cs|
  {
    hide AllTypes;
    var k := AllTypesPick(cs);
    if k != h {
      AllTypesWithout(cs - {k}, h);
      AllTypesWithout(cs - {h}, k);
      assert cs - {k} - {h} == cs - {h} - {k};
    }
  }

  lemma AllTypesPick(cs: map<Handle, Client>) returns (k: Handle)
    requires cs != map[]
    ensures k in cs && AllTypes(cs) == multiset(cs[k].types) + AllTypes(cs - {k})
  {
    k :| k in cs && AllTypes(cs) == multiset(cs[k].types) + AllTypes(cs - {k});
  }

  /** Only the clients' types matter. */
  lemma {:induction false} AllTypesFrame(a: map<Handle, Client>, b: map<Handle, Client>)
    requires a.Keys == b.Keys && forall h :: h in a ==> a[h].types == b[h].types
    ensures AllTypes(a) == AllTypes(b)
    decreases |a|
  {
    if a != map[] {
      var h :| h in a;
      AllTypesFrame(a - {h}, b - {h});
      AllTypesWithout(a, h);
      AllTypesWithout(b, h);
    } else {
      assert b == map[];
    }
  }

  /** A type is registered exactly when some client lists it. */
  lemma {:induction false} AllTypesMember(cs: map<Handle, Client>, t: MsgType)
    ensures t in AllTypes(cs) <==> exists h :: h in cs && t in cs[h].types
    decreases |cs|
  {
    if cs != map[] {
      var h :| h in cs;
      AllTypesWithout(cs, h);
      AllTypesMember(cs - {h}, t);
      if t in AllTypes(cs - {h}) {
        var k :| k in cs - {h} && t in (cs - {h})[k].types;
        assert k in cs && t in cs[k].types;
      }
      if k :| k in cs && t in cs[k].types && k != h {
        assert k in cs - {h} && t in (cs - {h})[k].types;
      }
    }
  }

  // ---------------------------------------------------------------------
  // The exchange with one neighbour
  // ---------------------------------------------------------------------

  /** Timers fire only if they are set, and callbacks come only if they were asked for. */
  predicate Due(kx: K.KeyExchange, e: PeerEvent)
    reads kx, kx.link
  {
    match e
    case LookupFailed => kx.lookup
    case LookupEnded => kx.lookup
    case LookupFound(_) => kx.lookup
    case RetryDue => kx.retry == K.Retry
    case RekeyDue => kx.retry == K.TriggerRekey
    case KeepAliveDue(_) => kx.keepAlive
    case TransportReady(_) => kx.link.pending
    case CorkDue => kx.link.up && kx.link.cork
    case TypemapDue(_) => kx.link.up
    case _ => true
  }

  /** An exchange that has just started: its lookup is running. */
  const NEW := K.Exchange(Down, false, true, K.NoTask, false, None, None, None, None, 0, [], [])

  /** The exchange after an event. */
  ghost function After(v: K.Exchange, e: PeerEvent): K.Exchange {
    match e
    case LookupFailed => v.(lookup := false, retry := K.Retry, mishaps := v.mishaps + [K.LookupFailed])
    case LookupEnded => v.(lookup := false, retry := if v.hasKey then v.retry else K.Retry)
    case LookupFound(b) => K.Found(v, b)
    case KeyArrived(m) => K.Keyed(v, m)
    case PingArrived(m) => K.Pinged(v, m)
    case PongArrived(m) => K.Ponged(v, m)
    case EncryptedArrived(m) => K.Unsealed(v, m)
    case RetryDue => K.Sent(v)
    case RekeyDue => v.(status := Rekey, retry := K.Retry)
    case KeepAliveDue(silent) => if silent then v.(status := KeySent, retry := K.Retry, keepAlive := false) else v
    case _ => v
  }

  /** The messages of the key exchange that are sent on an event. */
  function Utters(v: K.Exchange, e: PeerEvent): seq<T.Handshake> {
    match e
    case LookupFound(b) => K.FoundAnswer(v, b)
    case KeyArrived(m) => K.KeyAnswer(v, m)
    case PingArrived(m) => K.PingAnswer(v.status, Some(m))
    case RetryDue => K.Sends(v)
    case KeepAliveDue(silent) => if silent then [T.Key(KeySent), T.Ping] else [T.Ping]
    case _ => []
  }

  /** What is remembered of the rekey trigger: coming up, failed lookups, and keys of peers that are behind. */
  lemma MishapsExact(v: K.Exchange, e: PeerEvent)
    requires !v.hasKey ==> v.status == Down
    ensures var w := After(v, e);
            w.mishaps ==
              if w.status == Up && v.status != Up then []
              else if e == LookupFailed then v.mishaps + [K.LookupFailed]
              else if e.KeyArrived? && v.status == Up && K.Behind(e.key.sender) && K.Installable(v, e.key)
              then v.mishaps + [K.BehindKey]
              else v.mishaps
  {
    hide K.Keyed;
    if e.KeyArrived? {
      KeyMishaps(v, e.key);
    } else if e.LookupFound? && !v.hasKey && v.skm.Some? {
      KeyMishaps(K.Sent(v.(hasKey := true, skm := None)), v.skm.value);
    }
  }

  lemma KeyMishaps(v: K.Exchange, m: K.SetKey)
    ensures var w := K.Keyed(v, m);
            w.mishaps ==
              if w.status == Up && v.status != Up then []
              else if v.status == Up && K.Behind(m.sender) && K.Installable(v, m) then v.mishaps + [K.BehindKey]
              else v.mishaps
  {}

  /** Has this happened to the exchange with a peer? */
  twostate predicate Happened(kx: K.KeyExchange, e: PeerEvent)
    reads kx, kx.link, kx.tables
  {
    && kx.View() == After(old(kx.View()), e)
    && T.Said(kx.link.emitted) == old(T.Said(kx.link.emitted)) + Utters(old(kx.View()), e)
    && old(kx.link.emitted) <= kx.link.emitted
    && kx.link.OnlyRefused(old(kx.link.fates) +
         if e.TransportReady? then [if e.taken then T.HandedOver else T.TimedOut] else [])
    && (e.CorkDue? || e.TypemapDue? ==> Flushed(kx.link, e))
    && kx.peer != kx.tables.me
    // what peers and clients hear of it
    && match e
       case EncryptedArrived(m) =>
         if old(kx.status) != Up && old(kx.status) != RekeySent then kx.tables.Snap() == old(kx.tables.Snap())
         else
           && kx.peer in old(kx.tables.sessions)
           && kx.tables.Snap() == K.Unpacked(old(kx.tables.Snap()), kx.peer, old(kx.epoch), m)
       case PongArrived(_) =>
         kx.tables.Snap() == if old(kx.status) == KeyReceived && kx.status == Up
           then K.Established(old(kx.tables.Snap()), kx.peer, old(kx.View())) else old(kx.tables.Snap())
       case KeepAliveDue(silent) => silent ==> kx.peer !in kx.tables.sessions
       case _ => true
  }

  /** Has the link tried to transmit? */
  twostate predicate Flushed(link: T.Link, e: PeerEvent)
    reads link
  {
    && old(link.seqSent) < 0x1_0000_0000
    && (e.CorkDue? ==>
          if old(link.ready)
          then T.Decided(old(link.sme), link.world.clock(old(link.looks)), old(link.seqSent), old(link.emitted),
                         link.sme, link.emitted)
          else link.sme == old(link.sme) && link.emitted == old(link.emitted))
    && (e.TypemapDue? ==>
          && old(link.emitted) + [T.Sealed(T.NextSeq(old(link.seqSent)), [T.Entry(T.Announcement, e.size, 0)])]
               <= link.emitted
          && link.announced == old(link.announced) + 1 && !link.announcing)
  }

  method HandlePeer(kx: K.KeyExchange, e: PeerEvent)
    requires kx.Valid() && kx.tables.held == {} && Due(kx, e)
    modifies kx, kx.link, kx.tables
    ensures kx.Valid() && kx.tables.held == {} && Happened(kx, e) && kx.View() == After(old(kx.View()), e)
    ensures K.Elsewhere(old(kx.tables.Snap()), kx.tables.Snap(), kx.peer)
    // an exchange that forgot to rekey does not remember before its session ends
    ensures old(kx.status) == Up && old(kx.mishaps) != [] ==>
              (kx.status == Up && kx.mishaps != []) || kx.status == KeySent
  {
    hide R.RegOk, K.Elsewhere, K.KeyExchange.Wired, K.KeyExchange.WindowOk, Happened;
    match e {
      case KeyArrived(_) => HandleMessage(kx, e);
      case PingArrived(_) => HandleTraffic(kx, e);
      case PongArrived(_) => HandleMessage(kx, e);
      case EncryptedArrived(_) => HandleTraffic(kx, e);
      case RetryDue => HandleTimer(kx, e);
      case RekeyDue => HandleTimer(kx, e);
      case KeepAliveDue(_) => HandleTimer(kx, e);
      case TransportReady(_) => HandleTransmission(kx, e);
      case CorkDue => HandleTransmission(kx, e);
      case TypemapDue(_) => HandleTransmission(kx, e);
      case _ => HandleLookup(kx, e);
    }
  }

  method HandleLookup(kx: K.KeyExchange, e: PeerEvent)
    requires kx.Valid() && kx.tables.held == {} && Due(kx, e)
    requires e.LookupFailed? || e.LookupEnded? || e.LookupFound?
    modifies kx, kx.link, kx.tables
    ensures kx.Valid() && kx.tables.held == {} && Happened(kx, e) && kx.View() == After(old(kx.View()), e)
    ensures K.Elsewhere(old(kx.tables.Snap()), kx.tables.Snap(), kx.peer)
  {
    hide R.RegOk, R.Drained, K.Elsewhere, T.Link.Local, T.Said, K.Received, W.After, K.Found, K.FoundAnswer;
    K.ElsewhereRefl(kx.tables.Snap(), kx.peer);
    match e {
      case LookupFailed => kx.HelloError();
      case LookupEnded => kx.HelloEnd();
      case LookupFound(b) => kx.HelloFound(b);
    }
  }

  method HandleMessage(kx: K.KeyExchange, e: PeerEvent)
    requires kx.Valid() && kx.tables.held == {} && Due(kx, e)
    requires e.KeyArrived? || e.PongArrived?
    modifies kx, kx.link, kx.tables
    ensures kx.Valid() && kx.tables.held == {} && Happened(kx, e) && kx.View() == After(old(kx.View()), e)
    ensures K.Elsewhere(old(kx.tables.Snap()), kx.tables.Snap(), kx.peer)
  {
    hide R.RegOk, R.Drained, K.Elsewhere, T.Link.Local, T.Said, K.Received, W.After, K.Keyed, K.KeyAnswer;
    hide K.Ponged, K.Established, K.KeyExchange.WindowOk;
    match e {
      case KeyArrived(m) => kx.HandleSetKey(m);
      case PongArrived(m) => kx.HandlePong(m);
    }
  }

  method HandleTraffic(kx: K.KeyExchange, e: PeerEvent)
    requires kx.Valid() && kx.tables.held == {} && Due(kx, e)
    requires e.PingArrived? || e.EncryptedArrived?
    modifies kx, kx.link, kx.tables
    ensures kx.Valid() && kx.tables.held == {} && Happened(kx, e) && kx.View() == After(old(kx.View()), e)
    ensures K.Elsewhere(old(kx.tables.Snap()), kx.tables.Snap(), kx.peer)
  {
    hide R.RegOk, R.Drained, K.Elsewhere, T.Link.Local, T.Said, K.Received, W.After, K.Unpacked, K.PingAnswer, K.Passes;
    match e {
      case PingArrived(m) => kx.HandlePing(m);
      case EncryptedArrived(m) => kx.HandleEncrypted(m);
    }
  }

  method HandleTimer(kx: K.KeyExchange, e: PeerEvent)
    requires kx.Valid() && kx.tables.held == {} && Due(kx, e)
    requires e.RetryDue? || e.RekeyDue? || e.KeepAliveDue?
    modifies kx, kx.link, kx.tables
    ensures kx.Valid() && kx.tables.held == {} && Happened(kx, e) && kx.View() == After(old(kx.View()), e)
    ensures K.Elsewhere(old(kx.tables.Snap()), kx.tables.Snap(), kx.peer)
  {
    hide R.RegOk, R.Drained, K.Elsewhere, T.Link.Local, T.Said, W.After;
    K.ElsewhereRefl(kx.tables.Snap(), kx.peer);
    match e {
      case RetryDue => kx.RetryTimer();
      case RekeyDue => kx.RekeyTimer();
      case KeepAliveDue(silent) => kx.KeepAliveTimer(silent);
    }
  }

  method HandleTransmission(kx: K.KeyExchange, e: PeerEvent)
    requires kx.Valid() && kx.tables.held == {} && Due(kx, e)
    requires e.TransportReady? || e.CorkDue? || e.TypemapDue?
    modifies kx.link, kx.tables
    ensures kx.Valid() && kx.tables.held == {} && Happened(kx, e) && kx.View() == After(old(kx.View()), e)
    ensures K.Elsewhere(old(kx.tables.Snap()), kx.tables.Snap(), kx.peer)
  {
    hide R.RegOk, R.Drained, K.Elsewhere, T.Link.Local, T.Said, W.After;
    hide K.Unpacked, K.Established, T.Decided, T.NextSeq, R.Spared, R.Solicited, K.KeyExchange.WindowOk;
    ghost var a := kx.tables.Snap();
    kx.link.SeqWidth();
    match e {
      case TransportReady(taken) => var _ := kx.link.TransmitReady(taken);
      case CorkDue => kx.link.PopCork();
      case TypemapDue(size) => kx.link.TransmitTypemap(size);
    }
    K.DrainedElsewhere(a, kx.tables.Snap(), kx.peer);
    R.DrainedHeld(a, kx.tables.Snap(), kx.peer);
  }

  class Service {
    const tables: R.Tables
    const types: TypeMap.OwnTypes
    var kxs: map<Peer, K.KeyExchange>   // the neighbours

    ghost function Parts(): set<object>
      reads this
    {
      (set q | q in kxs :: kxs[q] as object) + (set q | q in kxs :: kxs[q].link as object)
    }

    /** The exchange with one neighbour is in order, and it agrees with the session table. */
    ghost predicate Linked(q: Peer)
      reads this, tables, Parts()
      requires q in kxs
    {
      && kxs[q].peer == q != tables.me && kxs[q].tables == tables && kxs[q].Local()
      && (kxs[q].link.up <==> q in tables.sessions)
    }

    ghost predicate Core()
      reads this, tables, types, types.counters, Parts()
    {
      && tables.Valid() && types.Valid()
      && (forall q :: q in tables.sessions ==> q in kxs)
      && (forall q :: q in kxs ==> Linked(q))
    }

    ghost predicate Valid()
      reads this, tables, types, types.counters, Parts()
    {
      Core() && tables.held == {} && types.registered == AllTypes(tables.clients)
    }

    constructor (me: Peer)
      ensures Valid() && tables.me == me && kxs == map[] && tables.clients == map[]
      ensures fresh(tables) && fresh(types) && fresh(types.counters)
    {
      tables := new R.Tables(me);
      types := new TypeMap.OwnTypes();
      kxs := map[];
    }

    lemma Part(p: Peer)
      requires Core() && p in kxs
      ensures kxs[p].Valid() && kxs[p].peer == p && kxs[p].tables == tables
      ensures forall q :: q in kxs && q != p ==> kxs[q] != kxs[p] && kxs[q].link != kxs[p].link
    {
      assert Linked(p);
      kxs[p].ValidSplit();
      forall q | q in kxs && q != p ensures kxs[q] != kxs[p] && kxs[q].link != kxs[p].link {
        assert Linked(q);
      }
    }

    lemma Linkage(p: Peer)
      requires Valid() && p in kxs
      ensures kxs[p].peer == p && kxs[p].tables == tables && p != tables.me
    {
      assert Linked(p);
    }

    /** What happens with one neighbour leaves the others in order. */
    twostate lemma Others(p: Peer)
      requires old(Core()) && kxs - {p} == old(kxs) - {p} && unchanged(types) && unchanged(types.counters)
      requires tables.Valid() && K.Elsewhere(old(tables.Snap()), tables.Snap(), p)
      requires p in tables.sessions ==> p in kxs
      requires p in kxs ==> Linked(p)
      requires forall q :: q in old(kxs) && q != p ==> unchanged(old(kxs)[q]) && unchanged(old(kxs)[q].link)
      ensures Core() && AllTypes(tables.clients) == old(AllTypes(tables.clients))
    {
      forall q | q in kxs ensures Linked(q) {
        if q != p {
          assert q in kxs - {p};
          assert q in old(kxs) - {p};
          assert old(Linked(q));
        }
      }
      forall q | q in tables.sessions ensures q in kxs {
        if q != p {
          assert q in old(kxs) - {p};
          assert q in kxs - {p};
        }
      }
      SameTypes(old(tables.Snap()), tables.Snap(), p);
    }

    /** Exchanges with other peers are as they were. */
    twostate predicate OthersKept(p: Peer)
      reads this, Parts()
    {
      forall q :: q in kxs && q != p ==>
        q in old(kxs) && kxs[q] == old(kxs)[q] && unchanged(kxs[q]) && unchanged(kxs[q].link)
    }

    /** Something happened to the exchange with a peer. */
    twostate predicate Touched(p: Peer, e: PeerEvent)
      reads this, tables, Parts()
    {
      && kxs == old(kxs) && p in kxs && kxs[p].tables == tables && Happened(kxs[p], e)
      && K.Elsewhere(old(tables.Snap()), tables.Snap(), p) && OthersKept(p)
    }

    method OnPeer(p: Peer, e: PeerEvent)
      requires Valid() && p in kxs && Due(kxs[p], e)
      modifies tables, kxs[p], kxs[p].link
      ensures Valid() && Touched(p, e)
    {
      hide R.RegOk, K.Elsewhere, K.KeyExchange.Local, K.KeyExchange.Valid, Happened;
      Part(p);
      HandlePeer(kxs[p], e);
      PartLinked(p);
      Others(p);
    }

    lemma PartLinked(p: Peer)
      requires p in kxs && kxs[p].Valid() && kxs[p].peer == p && kxs[p].tables == tables
      ensures Linked(p) && tables.Valid()
    {
      kxs[p].ValidSplit();
    }

    /** The peer, unless it is ourselves or was one before, is a neighbour, and its key exchange has started. */
    twostate predicate Joined(p: Peer, world: T.World)
      reads this, tables, Parts()
    {
      && kxs.Keys == old(kxs.Keys) + (if p == tables.me then {} else {p}) && tables.Snap() == old(tables.Snap())
      && OthersKept(p)
      && (p in kxs ==> if p in old(kxs) then kxs == old(kxs)
                       else kxs[p].View() == NEW && kxs[p].link.emitted == [] && kxs[p].link.world == world)
    }

    /** The transport service connected to a peer: a key exchange starts. */
    method Connect(p: Peer, world: T.World)
      requires Valid()
      modifies this
      ensures Valid() && Joined(p, world)
      ensures fresh(Parts() - old(Parts()))
    {
      hide R.RegOk, K.KeyExchange.Local, K.KeyExchange.Valid, K.Elsewhere, Linked, AllTypes;
      if p == tables.me || p in kxs {
        return;
      }
      var kx := new K.KeyExchange(p, tables, world);
      kxs := kxs[p := kx];
      PartLinked(p);
      K.ElsewhereRefl(tables.Snap(), p);
      Others(p);
    }

    /** The peer is no neighbour, and there is no session with it. */
    twostate predicate Parted(p: Peer)
      reads this, tables, Parts()
    {
      && kxs == old(kxs) - {p} && tables.sessions == old(tables.sessions) - {p}
      && K.Elsewhere(old(tables.Snap()), tables.Snap(), p) && OthersKept(p)
    }

    /** The transport service lost a peer: its session ends, its queues and tasks are gone. */
    method Disconnect(p: Peer)
      requires Valid()
      modifies this, tables
      ensures Valid() && Parted(p)
    {
      hide R.RegOk, K.KeyExchange.Local;
      if p !in kxs {
        assert p !in tables.sessions;
        return;
      }
      assert Linked(p);
      ghost var a := tables.Snap();
      tables.SessionEnd(p);
      assert K.Elsewhere(a, tables.Snap(), p);
      kxs := kxs - {p};
      assert K.Elsewhere(old(tables.Snap()), tables.Snap(), p);
      Others(p);
    }

    /** Hand our type map to every session. */
    method Broadcast(size: nat)
      requires Core() && 1 <= size < MAX_ENCRYPTED
      modifies tables, Parts()
      ensures Core() && Steady(old(tables.Snap()), tables.Snap())
      ensures forall p :: p in tables.sessions ==> kxs[p].link.announced == old(kxs[p].link.announced) + 1
    {
      hide R.RegOk, Steady, K.KeyExchange.Local, Linked;
      var todo := tables.sessions.Keys;
      SteadyRefl(tables.Snap());
      while todo != {}
        invariant Core() && Steady(old(tables.Snap()), tables.Snap())
        invariant todo <= tables.sessions.Keys
        invariant forall p :: p in tables.sessions ==>
          kxs[p].link.announced == old(kxs[p].link.announced) + if p in todo then 0 else 1
        decreases todo
      {
        var p :| p in todo;
        ghost var a := tables.Snap();
        PushTo(p, size);
        SteadyTrans(old(tables.Snap()), a, tables.Snap());
        todo := todo - {p};
      }
    }

    method PushTo(p: Peer, size: nat)
      requires Core() && 1 <= size < MAX_ENCRYPTED && p in tables.sessions
      modifies tables, kxs[p].link
      ensures Core() && Steady(old(tables.Snap()), tables.Snap()) && tables.sessions.Keys == old(tables.sessions.Keys)
      ensures kxs[p].link.announced == old(kxs[p].link.announced) + 1
      ensures forall q :: q in kxs && q != p ==> kxs[q].link.announced == old(kxs[q].link.announced)
    {
      hide R.RegOk, R.Drained, Steady, K.KeyExchange.Local, K.Elsewhere;
      Part(p);
      ghost var a := tables.Snap();
      kxs[p].link.PushTypemap(size);
      Returned(p, a);
      SteadySessions(a, tables.Snap());
    }

    /** Back from the link of one neighbour. */
    twostate lemma Returned(p: Peer, new a: R.Reg)
      requires old(Core()) && p in old(kxs) && kxs == old(kxs) && unchanged(types) && unchanged(types.counters)
      requires a == old(tables.Snap())
      requires old(kxs[p].Valid()) && unchanged(kxs[p]) && kxs[p].peer == p && kxs[p].tables == tables
      requires kxs[p].link.Valid() && kxs[p].link.up == old(kxs[p].link.up)
      requires R.Drained(a, tables.Snap(), p)
      requires forall q :: q in kxs && q != p ==> unchanged(kxs[q]) && unchanged(kxs[q].link)
      ensures Core() && AllTypes(tables.clients) == old(AllTypes(tables.clients))
      ensures Steady(a, tables.Snap())
    {
      hide R.RegOk, R.Drained, Steady, K.Elsewhere;
      assert kxs[p].Valid();
      PartLinked(p);
      K.DrainedElsewhere(a, tables.Snap(), p);
      DrainedSteady(a, tables.Snap(), p);
      Others(p);
    }

    /** Changes of the tables that keep the set of sessions concern no neighbour. */
    twostate lemma TablesOnly()
      requires old(Core()) && kxs == old(kxs) && types.Valid() && tables.Valid()
      requires tables.sessions.Keys == old(tables.sessions.Keys)
      requires forall q :: q in kxs ==> unchanged(kxs[q]) && unchanged(kxs[q].link)
      ensures Core()
    {
      forall q | q in kxs ensures Linked(q) {
        assert old(Linked(q));
      }
    }

    // ---- clients

    /** Every session got so many type maps of ours. */
    twostate predicate GotMaps(n: nat)
      reads this, tables, Parts()
    {
      forall q :: q in tables.sessions ==>
        q in kxs && q in old(kxs) && kxs[q].link.announced == old(kxs[q].link.announced) + n
    }

    /** Every session got our type map exactly if it changed. */
    twostate predicate Announced()
      reads this, tables, types, Parts()
    {
      types.within ==> GotMaps(if types.bits != old(types.bits) then 1 else 0)
    }

    /** The client is there with its types and options. */
    twostate predicate Registered(h: Handle, ts: seq<MsgType>, options: set<Flag>)
      reads this, tables, types, Parts()
    {
      && kxs == old(kxs) && tables.sessions.Keys == old(tables.sessions.Keys) && Announced()
      && tables.clients.Keys == old(tables.clients.Keys) + {h}
      && (h !in old(tables.clients) ==> tables.clients[h].types == ts && tables.clients[h].options == options)
    }

    /** The client is gone. */
    twostate predicate Withdrawn(h: Handle)
      reads this, tables, types, Parts()
    {
      && kxs == old(kxs) && tables.sessions.Keys == old(tables.sessions.Keys) && Announced()
      && tables.clients.Keys == old(tables.clients.Keys) - {h}
    }

    /** A client introduces itself; `announced` says that our type map was broadcast. */
    method Arrive(h: Handle, ts: seq<MsgType>, options: set<Flag>, size: nat) returns (announced: bool)
      requires Valid() && 1 <= size < MAX_ENCRYPTED
      modifies tables, types, types.counters, Parts()
      ensures Valid() && Registered(h, ts, options)
      ensures forall k :: k in old(tables.clients) ==> K.Continues(old(tables.clients)[k], tables.clients[k])
      ensures types.within ==> (announced <==> types.bits != old(types.bits))
      ensures GotMaps(if announced then 1 else 0)
    {
      hide R.RegOk, K.KeyExchange.Local, Linked, TypeMap.SlotOk, AllTypes;
      if h in tables.clients {
        return false;
      }
      ghost var a := tables.Snap();
      announced := Enlist(ts, size);
      SteadyTypes(a, tables.Snap());
      label broadcast:
      var _ := tables.ClientInit(h, ts, options);
      TablesOnly@broadcast();
      Arrived(old(tables.clients), old@broadcast(tables.clients), tables.clients, h);
    }

    /** A client went away. */
    method Leave(h: Handle, size: nat) returns (announced: bool)
      requires Valid() && 1 <= size < MAX_ENCRYPTED
      modifies tables, types, types.counters, Parts()
      ensures Valid() && Withdrawn(h)
      ensures forall k :: k in tables.clients ==> K.Continues(old(tables.clients)[k], tables.clients[k])
      ensures types.within ==> (announced <==> types.bits != old(types.bits))
      ensures GotMaps(if announced then 1 else 0)
    {
      hide R.RegOk, K.KeyExchange.Local, Linked, TypeMap.SlotOk, AllTypes;
      if h !in tables.clients {
        return false;
      }
      var ts := tables.clients[h].types;
      tables.ClientDisconnect(h);
      TablesOnly();
      ghost var a := tables.Snap();
      Left(old(tables.clients), tables.clients, h);
      announced := Withdraw(ts, size);
      SteadyTypes(a, tables.Snap());
    }

    /** A client's types are withdrawn, and our type map is broadcast if it changed. */
    method Withdraw(ts: seq<MsgType>, size: nat) returns (announced: bool)
      requires Core() && multiset(ts) <= types.registered && 1 <= size < MAX_ENCRYPTED
      modifies tables, types, types.counters, Parts()
      ensures Core() && Steady(old(tables.Snap()), tables.Snap())
      ensures types.registered == old(types.registered) - multiset(ts) && types.within == old(types.within)
      ensures types.within ==> (announced <==> types.bits != old(types.bits))
      ensures GotMaps(if announced then 1 else 0)
    {
      hide R.RegOk, K.KeyExchange.Local, Linked, TypeMap.SlotOk, AllTypes, Steady;
      SteadyRefl(tables.Snap());
      announced := types.Remove(ts);
      TablesOnly();
      if announced {
        Broadcast(size);
      }
    }

    /** A client's types are added, and our type map is broadcast if it changed. */
    method Enlist(ts: seq<MsgType>, size: nat) returns (announced: bool)
      requires Core() && 1 <= size < MAX_ENCRYPTED
      modifies tables, types, types.counters, Parts()
      ensures Core() && Steady(old(tables.Snap()), tables.Snap())
      ensures types.registered == old(types.registered) + multiset(ts)
      ensures types.within ==> (announced <==> types.bits != old(types.bits))
      ensures GotMaps(if announced then 1 else 0)
    {
      hide R.RegOk, K.KeyExchange.Local, Linked, TypeMap.SlotOk, AllTypes, Steady;
      SteadyRefl(tables.Snap());
      announced := types.Add(ts);
      TablesOnly();
      if announced {
        Broadcast(size);
      }
    }

    /** The client has a request for the peer, which is queued for it. */
    ghost predicate Outstanding(h: Handle, p: Peer, deadline: nat, size: nat)
      reads tables
    {
      && h in tables.clients && p in tables.clients[h].requests && p in tables.sessions
      && var x := tables.clients[h].requests[p];
         && x in tables.heap && x in tables.sessions[p].queue
         && tables.heap[x] == Request(h, p, deadline, size, tables.heap[x].solicited)
    }

    /** The client was told that it may send what it asked for. */
    twostate predicate Granted(h: Handle, p: Peer)
      reads tables
    {
      && h in old(tables.clients) && h in tables.clients && p in tables.clients[h].requests
      && tables.clients[h].requests[p] in tables.heap
      && (p != tables.me ==> tables.heap[tables.clients[h].requests[p]].solicited)
      && tables.clients[h].outbox == old(tables.clients)[h].outbox + [SendReady(p)]
    }

    /** By some reading of the clock since, the deadline had passed. */
    twostate predicate Late(p: Peer, deadline: nat)
      reads this, Parts()
    {
      p in kxs && p in old(kxs) &&
      exists k :: old(kxs[p].link.looks) <= k < kxs[p].link.looks && deadline < kxs[p].link.world.clock(k)
    }

    /** A client asked: for a peer out of its reach or with too much to send it gets nothing; for ourselves it is
        granted at once; else its request is outstanding unless it is late, and granted if the session was waiting
        for something to send. */
    twostate predicate Requested(h: Handle, p: Peer, deadline: nat, size: nat)
      reads this, tables, Parts()
    {
      kxs == old(kxs) && Steady(old(tables.Snap()), tables.Snap()) &&
      if h !in old(tables.clients) then tables.Snap() == old(tables.Snap())
      else
        var c := old(tables.clients)[h];
        if p == tables.me then Granted(h, p)
        else if p !in c.connected then
          tables.Snap() == old(tables.Snap()).(clients := old(tables.clients)[h := c.(asked := true)])
        else if size > MAX_ENCRYPTED then h in tables.clients && p !in tables.clients[h].requests
        else
          && (Outstanding(h, p, deadline, size) || Late(p, deadline))
          && p in kxs && p in old(kxs)
          && var l := kxs[p].link;
             (old(kxs[p].link.ready) && l.emitted == old(kxs[p].link.emitted) ==> Granted(h, p) || Late(p, deadline))
    }

    /** A client asks for permission to send to a peer. */
    method Ask(h: Handle, p: Peer, deadline: nat, size: nat)
      requires Valid()
      modifies tables, Parts()
      ensures Valid() && Steady(old(tables.Snap()), tables.Snap())
      ensures Requested(h, p, deadline, size)
    {
      hide R.RegOk, R.Drained, R.Spared, R.Solicited, K.KeyExchange.Local, AllTypes, Steady, Linked;
      var queued := tables.SendRequest(h, p, deadline, size);
      TablesOnly();
      ghost var a := tables.Snap();
      IsSteady(old(tables.Snap()), a);
      SteadyTypes(old(tables.Snap()), a);
      if queued {
        TryAsked(h, p);
        SteadyTrans(old(tables.Snap()), a, tables.Snap());
        SteadyTypes(a, tables.Snap());
      }
    }

    /** The client's request has just been put at the head of the queue. */
    method TryAsked(h: Handle, p: Peer)
      requires Core() && tables.held == {} && p in tables.sessions && h in tables.clients
      requires p in tables.clients[h].connected && p in tables.clients[h].requests
      requires var x := tables.clients[h].requests[p];
               && x in tables.heap && tables.sessions[p].queue != [] && tables.sessions[p].queue[0] == x
               && tables.heap[x].owner == h && tables.heap[x].target == p
               && tables.heap[x].size <= MAX_ENCRYPTED && !tables.heap[x].solicited
      modifies tables, kxs[p].link
      ensures Core() && Steady(old(tables.Snap()), tables.Snap())
      ensures var q := old(tables.heap[tables.clients[h].requests[p]]);
              && (Outstanding(h, p, q.deadline, q.size) || Late(p, q.deadline))
              && (old(kxs[p].link.ready) && kxs[p].link.emitted == old(kxs[p].link.emitted) ==>
                    Granted(h, p) || Late(p, q.deadline))
    {
      hide R.RegOk, R.Drained, R.Spared, R.Solicited, K.KeyExchange.Local, Steady, AllTypes, Linked;
      ghost var a, x, i := tables.Snap(), tables.clients[h].requests[p], kxs[p].link.looks;
      ghost var asking := kxs[p].link.ready;
      TryPeer(p);
      ghost var b, l := tables.Snap(), kxs[p].link;
      R.ConnectedHasSession(a, h, p);
      R.RequestStays(a, b, p, x, l.world.clock, i, l.looks);
      if l.Asking(a, i) && !R.Expired(a.heap, x, l.world.clock(l.looks - 1)) {
        R.HeadGranted(a, b, p, l.world.clock(l.looks - 1), x);
      }
    }

    method TryPeer(p: Peer)
      requires Core() && p in tables.sessions
      modifies tables, kxs[p].link
      ensures Core() && Steady(old(tables.Snap()), tables.Snap())
      ensures kxs[p].link.Spared(old(tables.Snap()), old(kxs[p].link.looks))
      ensures kxs[p].link.peer == p && kxs[p].link.tables == tables && R.Drained(old(tables.Snap()), tables.Snap(), p)
      ensures tables.held == old(tables.held)
      ensures old(kxs[p].link.ready) && kxs[p].link.emitted == old(kxs[p].link.emitted) ==>
                kxs[p].link.Asking(old(tables.Snap()), old(kxs[p].link.looks))
    {
      hide R.RegOk, R.Drained, R.Spared, R.Solicited, K.KeyExchange.Local, Steady, AllTypes;
      hide T.Decided, T.Ids, T.SealedIds, T.Maps, T.SealedMaps, T.Numbered, T.Seals, T.Said, T.Regular;
      Part(p);
      ghost var a := tables.Snap();
      kxs[p].link.TryTransmission();
      Returned(p, a);
    }

    /** A client sent: its request, if it had one, is freed and its messages were accepted by the session in order, or
        looped back; else nothing happened. */
    twostate predicate Sending(h: Handle, p: Peer, msgs: seq<Outgoing>)
      reads this, tables, Parts()
    {
      kxs == old(kxs) && Steady(old(tables.Snap()), tables.Snap()) &&
      if h !in old(tables.clients) || p !in old(tables.clients)[h].requests then tables.Snap() == old(tables.Snap())
      else
        && old(tables.clients)[h].requests[p] !in tables.heap
        && if p != tables.me then AcceptedBy(p) == old(AcceptedBy(p)) + IdsOf(msgs)
           else tables.clients == LoopedAll(Held(old(tables.Snap()), h, p), msgs).clients
    }

    /** A client sends messages to a peer (or to this peer's own clients). */
    method Send(h: Handle, p: Peer, msgs: seq<Outgoing>)
      requires Valid() && Permitted(h, p) && forall i :: 0 <= i < |msgs| ==> 1 <= msgs[i].size != MAX_ENCRYPTED
      modifies tables, Parts()
      ensures Valid() && Steady(old(tables.Snap()), tables.Snap())
      ensures Sending(h, p, msgs)
    {
      hide R.RegOk, R.Drained, R.Told, K.KeyExchange.Local, Steady, AllTypes, IdsOf, LoopedAll, Linked;
      SteadyRefl(tables.Snap());
      var x := tables.SendBegin(h, p);
      if x.None? {
        return;
      }
      TablesOnly();
      ghost var a := tables.Snap();
      assert a == Held(old(tables.Snap()), h, p);
      SendHeld(x.value, p, msgs);
      Sent(old(tables.Snap()), a, tables.Snap());
      SteadyTypes(old(tables.Snap()), tables.Snap());
    }

    /** The send handler owns the request. */
    method SendHeld(x: Ref, p: Peer, msgs: seq<Outgoing>)
      requires Core() && (p == tables.me || p in tables.sessions) && tables.held == {x}
      requires forall i :: 0 <= i < |msgs| ==> 1 <= msgs[i].size != MAX_ENCRYPTED
      modifies tables, Parts()
      ensures Core() && tables.held == {} && Steady(old(tables.Snap()), tables.Snap().(held := {x}))
      ensures x !in tables.heap
      ensures p != tables.me ==> AcceptedBy(p) == old(AcceptedBy(p)) + IdsOf(msgs)
      ensures p == tables.me ==> tables.clients == LoopedAll(old(tables.Snap()), msgs).clients
    {
      hide R.RegOk, R.Drained, R.Told, K.KeyExchange.Local, Steady, AllTypes, IdsOf, LoopedAll;
      ghost var a := tables.Snap();
      SendAll(p, msgs);
      ghost var b := tables.Snap();
      SteadySessions(a, b);
      label sent:
      tables.SendEnd(x);
      TablesOnly@sent();
      SteadyFrame(a, b, tables.Snap().(held := {x}));
    }

    method SendAll(p: Peer, msgs: seq<Outgoing>)
      requires Core() && (p == tables.me || p in tables.sessions)
      requires forall i :: 0 <= i < |msgs| ==> 1 <= msgs[i].size != MAX_ENCRYPTED
      modifies tables, Parts()
      ensures Core() && Steady(old(tables.Snap()), tables.Snap())
      ensures p != tables.me ==> AcceptedBy(p) == old(AcceptedBy(p)) + IdsOf(msgs)
      ensures p == tables.me ==> tables.Snap() == LoopedAll(old(tables.Snap()), msgs)
    {
      hide R.RegOk, K.KeyExchange.Local, Steady, AllTypes, Core, AcceptedBy, LoopedBack;
      ghost var a := tables.Snap();
      SteadyRefl(a);
      for i := 0 to |msgs|
        invariant Core() && Steady(a, tables.Snap()) && (p == tables.me || p in tables.sessions)
        invariant p != tables.me ==> AcceptedBy(p) == old(AcceptedBy(p)) + IdsOf(msgs[..i])
        invariant p == tables.me ==> tables.Snap() == LoopedAll(a, msgs[..i])
      {
        ghost var b := tables.Snap();
        assert msgs[..i + 1][..i] == msgs[..i];
        SendOne(p, msgs[i]);
        SteadySessions(b, tables.Snap());
        SteadyTrans(a, b, tables.Snap());
      }
      assert msgs[..|msgs|] == msgs;
    }

    /** The client messages accepted in the present session with a peer. */
    ghost function AcceptedBy(p: Peer): seq<nat>
      reads this, Parts()
    {
      if p in kxs then kxs[p].link.accepted else []
    }

    /** Clients send only after they were told that they may. */
    predicate Permitted(h: Handle, p: Peer)
      reads tables
    {
      && (h in tables.clients ==> tables.clients[h].asked)
      && (h in tables.clients && p in tables.clients[h].requests && p != tables.me ==>
            tables.clients[h].requests[p] in tables.heap && tables.heap[tables.clients[h].requests[p]].solicited)
    }

    /** One message: copied to the clients that watch, and given to the session or to our own clients. */
    method SendOne(p: Peer, m: Outgoing)
      requires Core() && 1 <= m.size != MAX_ENCRYPTED && (p == tables.me || p in tables.sessions)
      modifies tables, Parts()
      ensures Core() && Steady(old(tables.Snap()), tables.Snap())
      ensures p != tables.me ==> p in tables.sessions && AcceptedBy(p) == old(AcceptedBy(p)) + [m.id]
      ensures p == tables.me ==> tables.Snap() == LoopedBack(old(tables.Snap()), m.mtype)
      ensures p != tables.me ==> R.Drained(Watched(old(tables.Snap()), p, m.mtype), tables.Snap(), p)
    {
      hide R.RegOk, R.Drained, R.Told, R.Delivered, K.KeyExchange.Local, Steady, AllTypes;
      hide T.Link.Local, T.Decided;
      ghost var a := tables.Snap();
      tables.DeliverOutbound(p, m.mtype);
      ToldSteady(a, tables.Snap());
      SteadySessions(a, tables.Snap());
      ghost var b := tables.Snap();
      if p == tables.me {
        tables.DeliverInbound(p, m.mtype);
        ToldSteady(b, tables.Snap());
        SteadySessions(b, tables.Snap());
        SteadyTrans(a, b, tables.Snap());
        TablesOnly();
      } else {
        TablesOnly();
        Part(p);
        label told:
        kxs[p].link.Transmit(m.id, m.size, m.deadline);
        Returned@told(p, b);
        SteadySessions(b, tables.Snap());
        SteadyTrans(a, b, tables.Snap());
      }
    }

    // ---- what the invariant says of every reachable state

    /** A session exists exactly while the key exchange is up or rekeying, and only then keep-alives are due. */
    lemma SessionIffLive(p: Peer)
      requires Valid()
      ensures p in tables.sessions <==> p in kxs && K.Live(kxs[p].status)
      ensures p in kxs ==> (kxs[p].keepAlive <==> p in tables.sessions)
    {
      if p in kxs {
        assert Linked(p);
      }
    }

    /** The key exchange always has something to wait for, and never is DOWN with the peer's public key. */
    lemma ExchangeProgresses(p: Peer)
      requires Valid() && p in kxs
      ensures var kx := kxs[p];
              && (!kx.hasKey ==>
                    kx.status == Down && (kx.lookup <==> kx.retry == K.NoTask) && kx.retry != K.TriggerRekey)
              && (kx.hasKey ==> kx.status != Down && kx.ownKey && (kx.status != Up ==> kx.retry == K.Retry))
              && (kx.retry == K.TriggerRekey ==> kx.status == Up)
    {
      assert Linked(p);
    }

    /** An exchange that is up is going to rekey exactly if, since it came up, no key of a peer that is behind was
        installed and no lookup failed. */
    lemma RekeyIff(p: Peer)
      requires Valid() && p in kxs && kxs[p].status == Up
      ensures kxs[p].retry == K.TriggerRekey <==> kxs[p].mishaps == []
    {
      assert Linked(p);
    }

    /** No wake-up is lost: whatever is queued for a peer, a task or a transport request is going to look at it. */
    lemma NoLostWakeUp(p: Peer)
      requires Valid() && p in tables.sessions
      ensures p in kxs
      ensures var l := kxs[p].link;
              && (l.ready && l.sme != [] && !T.Stuck(l.sme) ==> l.cork)
              && (!l.ready ==> l.queue != [] || l.announcing)
              && (l.queue != [] <==> l.pending)
    {
      assert Linked(p);
    }

    /** Client messages are encrypted once each and in order, under numbers that follow each other. */
    lemma MessagesConserved(p: Peer)
      requires Valid() && p in tables.sessions
      ensures p in kxs
      ensures var l := kxs[p].link;
              && l.mark <= |l.emitted| && T.SealedIds(l.emitted[l.mark..]) + T.Ids(l.sme) == l.accepted
              && T.Numbered(l.emitted)
    {
      assert Linked(p);
    }

    /** Whatever was queued for a neighbour has left in order, refused exactly if the transport service did not accept
        the request for it, or is still queued, in order. */
    lemma NothingSkipped(p: Peer, i: nat)
      requires Valid() && p in kxs && i < |kxs[p].link.emitted|
      ensures var l := kxs[p].link;
              && |l.fates| + |l.queue| == |l.emitted|
              && if i < |l.fates| then l.fates[i] == T.Refused <==> !l.world.accepts(i)
                 else l.queue[i - |l.fates|] == l.emitted[i]
    {
      assert Linked(p);
    }

    /** The window of every exchange is that of the sequence numbers judged under the current key. */
    lemma WindowIsHistory(p: Peer, i: nat)
      requires Valid() && p in kxs && i < 32
      ensures var kx := kxs[p];
              kx.bitmap[i] <==> i < kx.newest && W.LateIn(kx.epoch, kx.newest - 1 - i)
    {
      assert Linked(p);
      W.BitmapExact(kxs[p].epoch);
    }

    /** A client's connection map: ourselves, and the peers with a live exchange whose type map matches. */
    lemma ConnectionsExact(h: Handle, p: Peer)
      requires Valid() && h in tables.clients
      ensures p in tables.clients[h].connected <==>
                || p == tables.me
                || (&& p in kxs && K.Live(kxs[p].status) && p in tables.sessions
                    && TypeMap.Matches(Some(tables.sessions[p].tmap), tables.clients[h].types))
    {
      SessionIffLive(p);
      assert R.ConnExact(tables.Snap(), tables.clients[h]);
    }

    /** What a client was told: connects and disconnects of each peer alternate and add up to its map. */
    lemma NoticesInOrder(h: Handle, p: Peer)
      requires Valid() && h in tables.clients && p != tables.me
      ensures var a := R.About(tables.clients[h].outbox, p);
              && (forall i :: 0 <= i < |a| ==> a[i] == if i % 2 == 0 then Notice.Connect(p) else Notice.Disconnect(p))
              && (p in tables.clients[h].connected <==> |a| % 2 == 1)
    {
      assert R.ClientOk(tables.me, tables.clients[h]);
      R.NoticesAlternate(tables.me, tables.clients[h].types, tables.clients[h].outbox, p);
    }

    /** A message of a type that the client handles was queued only inside a connected interval of its peer. */
    lemma TrafficWhileConnected(h: Handle, k: nat)
      requires Valid() && h in tables.clients && k < |tables.clients[h].outbox|
      requires tables.clients[h].outbox[k].Traffic?
      requires R.Handles(tables.clients[h].types, tables.clients[h].outbox[k].mtype)
      ensures var n := tables.clients[h].outbox[k];
              n.peer == tables.me || |R.About(tables.clients[h].outbox[..k], n.peer)| % 2 == 1
    {
      var c := tables.clients[h];
      assert R.ClientOk(tables.me, c);
      var before := c.outbox[..k];
      forall j | 0 <= j < k ensures R.NoticeOk(tables.me, c.types, before[..j], before[j]) {
        assert before[..j] == c.outbox[..j];
      }
      assert R.NoticeOk(tables.me, c.types, before, c.outbox[k]);
      R.NoticesAlternate(tables.me, c.types, before, c.outbox[k].peer);
    }

    /** A client's request to another peer sits in that peer's queue, once, and in no other queue. */
    lemma RequestQueued(h: Handle, p: Peer, q: Peer)
      requires Valid() && h in tables.clients && p in tables.clients[h].requests && q in tables.sessions
      ensures p != tables.me ==> p in tables.sessions
      ensures tables.clients[h].requests[p] in tables.sessions[q].queue <==> q == p
      ensures NoDup(tables.sessions[q].queue)
    {
      var r := tables.Snap();
      R.ListedLive(r, h, p);
      R.QueueNoDup(r, q);
      if tables.clients[h].requests[p] in tables.sessions[q].queue {
        R.QueuedLive(r, q, tables.clients[h].requests[p]);
      }
    }

    /** A queued request is listed by the client that owns it. */
    lemma QueuedRequested(p: Peer, x: Ref)
      requires Valid() && p in tables.sessions && x in tables.sessions[p].queue
      ensures x in tables.heap && tables.heap[x].owner in tables.clients
      ensures var c := tables.clients[tables.heap[x].owner]; p in c.requests && c.requests[p] == x
    {
      R.QueuedLive(tables.Snap(), p, x);
    }

    /** Our type map is exactly the set of types that connected clients list, as long as no type was
        ever registered more than 256 times at once. */
    lemma OwnMapExact(t: MsgType)
      requires Valid() && types.within
      ensures t in types.bits <==> exists h :: h in tables.clients && t in tables.clients[h].types
    {
      types.MapExact(t);
      AllTypesMember(tables.clients, t);
    }

    // ---- the whole service

    /** The event can happen now. */
    predicate Enabled(e: Event)
      reads this, tables, Parts()
    {
      match e
      case OfPeer(p, w) => p in kxs && Due(kxs[p], w)
      case ClientArrives(_, _, _, size) => 1 <= size < MAX_ENCRYPTED
      case ClientLeaves(_, size) => 1 <= size < MAX_ENCRYPTED
      case ClientSends(h, p, msgs) =>
        Permitted(h, p) && forall i :: 0 <= i < |msgs| ==> 1 <= msgs[i].size != MAX_ENCRYPTED
      case _ => true
    }

    /** Has this happened to the service? */
    twostate predicate Effect(e: Event)
      reads this, tables, types, Parts()
    {
      match e
      case PeerConnected(p, world) => Joined(p, world)
      case PeerDisconnected(p) => Parted(p)
      case OfPeer(p, w) => Touched(p, w)
      case ClientArrives(h, ts, options, _) => Registered(h, ts, options)
      case ClientLeaves(h, _) => Withdrawn(h)
      case ClientAsks(h, p, deadline, size) => Requested(h, p, deadline, size)
      case ClientSends(h, p, msgs) => Sending(h, p, msgs)
    }

    method Step(e: Event)
      requires Valid() && Enabled(e)
      modifies this, tables, types, types.counters, Parts()
      ensures Valid() && fresh(Parts() - old(Parts())) && Effect(e)
      ensures forall h :: h in old(tables.clients) && h in tables.clients ==>
                K.Continues(old(tables.clients)[h], tables.clients[h])
    {
      hide R.RegOk, K.KeyExchange.Local, Core, AllTypes;
      match e {
        case PeerConnected(p, world) => Connect(p, world);
        case PeerDisconnected(p) => Disconnect(p);
        case OfPeer(p, w) => OnPeer(p, w);
        case ClientArrives(h, ts, options, size) => var _ := Arrive(h, ts, options, size);
        case ClientLeaves(h, size) => var _ := Leave(h, size);
        case ClientAsks(h, p, deadline, size) => Ask(h, p, deadline, size);
        case ClientSends(h, p, msgs) => Send(h, p, msgs);
      }
    }

    /** Every state that events can reach satisfies the invariant, and its clients and neighbours are those that came
        and did not leave. */
    method Run(events: seq<Event>)
      requires Valid()
      modifies this, tables, types, types.counters, Parts()
      ensures Valid()
      ensures tables.clients.Keys == ClientsAfter(old(tables.clients.Keys), events)
      ensures kxs.Keys == PeersAfter(tables.me, old(kxs.Keys), events)
    {
      hide Valid, Effect, K.Continues, ClientsAfter, PeersAfter;
      ClientsStep(tables.clients.Keys, events, 0);
      PeersStep(tables.me, kxs.Keys, events, 0);
      for i := 0 to |events|
        invariant Valid() && fresh(Parts() - old(Parts()))
        invariant tables.clients.Keys == ClientsAfter(old(tables.clients.Keys), events[..i])
        invariant kxs.Keys == PeersAfter(tables.me, old(kxs.Keys), events[..i])
      {
        ClientsStep(old(tables.clients.Keys), events, i + 1);
        PeersStep(tables.me, old(kxs.Keys), events, i + 1);
        TryStep(events[i]);
      }
      assert events[..|events|] == events;
    }

    /** Events that cannot happen now are left out. */
    method TryStep(e: Event)
      requires Valid()
      modifies this, tables, types, types.counters, Parts()
      ensures Valid() && fresh(Parts() - old(Parts()))
      ensures old(Enabled(e)) ==> Effect(e)
      ensures tables.clients.Keys == ClientsNext(old(tables.clients.Keys), e)
      ensures kxs.Keys == PeersNext(tables.me, old(kxs.Keys), e)
    {
      hide Valid, Happened, K.Continues;
      if Enabled(e) {
        Step(e);
      }
    }
  }

  function ClientsNext(hs: set<Handle>, e: Event): set<Handle> {
    match e
    case ClientArrives(h, _, _, size) => if 1 <= size < MAX_ENCRYPTED then hs + {h} else hs
    case ClientLeaves(h, size) => if 1 <= size < MAX_ENCRYPTED then hs - {h} else hs
    case _ => hs
  }

  function PeersNext(me: Peer, ps: set<Peer>, e: Event): set<Peer> {
    match e
    case PeerConnected(p, _) => if p == me then ps else ps + {p}
    case PeerDisconnected(p) => ps - {p}
    case _ => ps
  }

  /** The clients after a run of events. */
  ghost function ClientsAfter(hs: set<Handle>, es: seq<Event>): set<Handle> {
    if es == [] then hs else ClientsNext(ClientsAfter(hs, es[..|es| - 1]), es[|es| - 1])
  }

  /** The neighbours after a run of events. */
  ghost function PeersAfter(me: Peer, ps: set<Peer>, es: seq<Event>): set<Peer> {
    if es == [] then ps else PeersNext(me, PeersAfter(me, ps, es[..|es| - 1]), es[|es| - 1])
  }

  lemma ClientsStep(hs: set<Handle>, es: seq<Event>, k: nat)
    requires k <= |es|
    ensures ClientsAfter(hs, es[..k]) ==
              if k == 0 then hs else ClientsNext(ClientsAfter(hs, es[..k - 1]), es[k - 1])
  {
    if k > 0 {
      assert es[..k][..k - 1] == es[..k - 1];
    }
  }

  lemma PeersStep(me: Peer, ps: set<Peer>, es: seq<Event>, k: nat)
    requires k <= |es|
    ensures PeersAfter(me, ps, es[..k]) ==
              if k == 0 then ps else PeersNext(me, PeersAfter(me, ps, es[..k - 1]), es[k - 1])
  {
    if k > 0 {
      assert es[..k][..k - 1] == es[..k - 1];
    }
  }

  /** The full copy of a message whose type is new makes the peer known to a client that handles the type. */
  lemma FullCopy(r: R.Reg, p: Peer, t: MsgType, h: Handle)
    requires p != r.me && p in r.sessions && t !in r.sessions[p].tmap && h in r.clients && r.clients[h].types == [t]
    ensures var b := R.Delivered(r, p, t, FullInbound);
            && b.me == r.me && p in b.sessions && t in b.sessions[p].tmap
            && h in b.clients && b.clients[h].types == [t]
            && b.clients[h].outbox == r.clients[h].outbox + [Notice.Connect(p), Traffic(p, t, FullInbound)]
  {
    var c := r.clients[h];
    assert !TypeMap.Matches(Some(r.sessions[p].tmap), c.types);
    assert t in c.types && t in r.sessions[p].tmap + {t};
  }

  /** The header copy does not reach a client that got the full one. */
  lemma NoHeader(r: R.Reg, p: Peer, t: MsgType, h: Handle)
    requires p != r.me && p in r.sessions && t in r.sessions[p].tmap && h in r.clients && r.clients[h].types == [t]
    ensures var b := R.Delivered(r, p, t, HdrInbound);
            h in b.clients && b.clients[h].outbox == r.clients[h].outbox
  {
    assert r.sessions[p].tmap + {t} == r.sessions[p].tmap;
    assert t in r.clients[h].types;
  }

  /** The first message of its type makes the peer known to a client that handles the type, which then gets it. */
  lemma FirstTraffic(r: R.Reg, p: Peer, t: MsgType, h: Handle)
    requires p != r.me && p in r.sessions && t !in r.sessions[p].tmap && h in r.clients && r.clients[h].types == [t]
    ensures var b := K.Received(r, p, [K.Data(t)]);
            && h in b.clients
            && b.clients[h].outbox == r.clients[h].outbox + [Notice.Connect(p), Traffic(p, t, FullInbound)]
  {
    hide R.Delivered, K.Received;
    K.ReceivedStep(r, p, [K.Data(t)], 0);
    K.ReceivedStep(r, p, [K.Data(t)], 1);
    assert [K.Data(t)][..1] == [K.Data(t)];
    FullCopy(r, p, t, h);
    NoHeader(R.Delivered(r, p, t, FullInbound), p, t, h);
  }

  /** A key that is going to be installed, and a message that is going to be delivered. */
  const GOOD_KEY := K.SetKey(true, true, true, true, 1, KeySent)
  const MESSAGE := K.Encrypted(true, true, true, 1, [K.Data(7)])

  /** The course of a handshake. */
  const SENT := NEW.(status := KeySent, hasKey := true, retry := K.Retry)
  const RECEIVED := SENT.(status := KeyReceived, created := 1)
  const CONFIRMED := RECEIVED.(status := Up, retry := K.TriggerRekey, keepAlive := true)

  lemma Course()
    ensures After(NEW, LookupFound(true)) == SENT && After(SENT, KeyArrived(GOOD_KEY)) == RECEIVED
    ensures After(RECEIVED, PongArrived(K.Probe(true, true))) == CONFIRMED
    ensures After(CONFIRMED, EncryptedArrived(MESSAGE)).status == Up && K.Passes(CONFIRMED.epoch, MESSAGE)
  {
    assert (CONFIRMED.epoch + [MESSAGE.snum])[..0] == [];
  }

  /** One event of a neighbour: what becomes of its exchange, and of clients. */
  method Advance(s: Service, p: Peer, w: PeerEvent)
    requires s.Valid() && p in s.kxs && Due(s.kxs[p], w)
    modifies s.tables, s.kxs[p], s.kxs[p].link
    ensures s.Valid() && s.kxs[p].tables == s.tables && s.kxs[p].peer == p && Happened(s.kxs[p], w)
    ensures s.kxs[p].View() == After(old(s.kxs[p].View()), w)
    ensures s.tables.clients.Keys == old(s.tables.clients.Keys)
    ensures forall h :: h in old(s.tables.clients) ==> s.tables.clients[h].types == old(s.tables.clients)[h].types
  {
    hide Service.Valid, T.Said, After, Utters;
    s.OnPeer(p, w);
    s.Linkage(p);
  }

  /** The exchange with a new neighbour comes up. */
  method Raise(s: Service, p: Peer)
    requires s.Valid() && p in s.kxs && s.kxs[p].View() == NEW
    modifies s.tables, s.kxs[p], s.kxs[p].link
    ensures s.Valid() && s.kxs[p].View() == CONFIRMED && p != s.tables.me
    ensures p in s.tables.sessions && s.tables.sessions[p].tmap == {}
    ensures s.tables.clients.Keys == old(s.tables.clients.Keys)
    ensures forall h :: h in old(s.tables.clients) ==> s.tables.clients[h].types == old(s.tables.clients)[h].types
  {
    hide Service.Valid, T.Said, After, Utters, Flushed;
    Course();
    Advance(s, p, LookupFound(true));
    Advance(s, p, KeyArrived(GOOD_KEY));
    Advance(s, p, PongArrived(K.Probe(true, true)));
  }

  /** A client at the start. */
  method Welcome() returns (s: Service)
    ensures fresh(s) && fresh(s.tables) && fresh(s.types) && fresh(s.types.counters) && s.Valid()
    ensures s.kxs == map[] && s.tables.clients.Keys == {1} && s.tables.clients[1].types == [7] && s.tables.me == 0
  {
    hide Service.Valid, Service.Announced, Service.OthersKept, Service.Requested, Service.Sending, Service.Touched;
    hide Service.Parted, Service.Withdrawn, Service.Joined;
    s := new Service(0);
    s.Step(ClientArrives(1, [7], {}, 100));
  }

  /** And a neighbour. */
  method Introduce() returns (s: Service)
    ensures fresh(s) && fresh(s.tables) && s.Valid() && s.tables.clients.Keys == {1}
    ensures s.tables.clients[1].types == [7]
    ensures 5 in s.kxs && fresh(s.kxs[5]) && fresh(s.kxs[5].link) && s.kxs[5].View() == NEW
  {
    hide Service.Valid, Service.Registered, Service.OthersKept, Service.Requested, Service.Sending, Service.Touched;
    hide Service.Parted, Service.Withdrawn;
    s := Welcome();
    s.Step(PeerConnected(5, T.World(_ => true, _ => 0)));
    assert s.kxs[5] in s.Parts() && s.kxs[5].link in s.Parts();
  }

  /** A run from the start to a session and a message delivered to a client. */
  method FirstDelivery() returns (s: Service)
    ensures fresh(s) && s.Valid() && 5 in s.tables.sessions && 5 in s.kxs && s.kxs[5].status == Up
    ensures 1 in s.tables.clients
    ensures exists o :: s.tables.clients[1].outbox == o + [Notice.Connect(5), Traffic(5, 7, FullInbound)]
  {
    hide Service.Valid, K.Elsewhere, K.Received, T.Said, After, Utters, Flushed, K.Passes;
    s := Introduce();
    Raise(s, 5);
    Course();
    ghost var r := s.tables.Snap();
    Advance(s, 5, EncryptedArrived(MESSAGE));
    FirstTraffic(r, 5, 7, 1);
  }

  /** No client and no session comes or goes. */
  ghost predicate Steady(a: R.Reg, b: R.Reg) {
    && b.held == a.held && b.clients.Keys == a.clients.Keys && b.sessions.Keys == a.sessions.Keys
    && (forall h :: h in a.clients ==> K.Continues(a.clients[h], b.clients[h]))
  }

  lemma SteadyRefl(a: R.Reg)
    ensures Steady(a, a)
  {}

  lemma IsSteady(a: R.Reg, b: R.Reg)
    requires b.held == a.held && b.clients.Keys == a.clients.Keys && b.sessions.Keys == a.sessions.Keys
    requires forall h :: h in b.clients ==>
               K.Continues(a.clients[h], b.clients[h])
    ensures Steady(a, b)
  {}

  lemma SteadySessions(a: R.Reg, b: R.Reg)
    requires Steady(a, b)
    ensures a.sessions.Keys == b.sessions.Keys && a.held == b.held
  {}

  lemma SteadyTrans(a: R.Reg, b: R.Reg, c: R.Reg)
    requires Steady(a, b) && Steady(b, c)
    ensures Steady(a, c)
  {}

  lemma DrainedSteady(a: R.Reg, b: R.Reg, p: Peer)
    requires R.Drained(a, b, p)
    ensures Steady(a, b)
  {
    forall h | h in a.clients ensures K.Continues(a.clients[h], b.clients[h]) {
      assert R.ClientDrained(a.clients[h], b.clients[h], p);
    }
  }

  lemma SteadyTypes(a: R.Reg, b: R.Reg)
    requires Steady(a, b)
    ensures AllTypes(a.clients) == AllTypes(b.clients) && a.held == b.held
    ensures a.sessions.Keys == b.sessions.Keys && a.clients.Keys == b.clients.Keys
    ensures forall h :: h in a.clients ==> K.Continues(a.clients[h], b.clients[h])
  {
    forall h | h in a.clients ensures a.clients[h].types == b.clients[h].types {
      assert K.Continues(a.clients[h], b.clients[h]);
    }
    AllTypesFrame(a.clients, b.clients);
  }

  lemma ToldSteady(a: R.Reg, b: R.Reg)
    requires R.Told(a, b)
    ensures Steady(a, b)
  {
    forall h | h in a.clients ensures K.Continues(a.clients[h], b.clients[h]) {
      assert R.SameAccount(a.clients[h], b.clients[h]);
    }
  }

  ghost function IdsOf(msgs: seq<Outgoing>): seq<nat> {
    if msgs == [] then [] else IdsOf(msgs[..|msgs| - 1]) + [msgs[|msgs| - 1].id]
  }

  /** The tables while a client's send handler owns its request. */
  ghost function Held(r: R.Reg, h: Handle, p: Peer): R.Reg
    requires h in r.clients && p in r.clients[h].requests
  {
    r.(clients := r.clients[h := r.clients[h].(requests := r.clients[h].requests - {p})],
       held := {r.clients[h].requests[p]})
  }

  /** A message of one of our clients was offered to those that watch outbound traffic. */
  ghost function Watched(r: R.Reg, p: Peer, t: MsgType): R.Reg
    requires p == r.me || p in r.sessions
  {
    R.Delivered(R.Delivered(r, p, t, FullOutbound), p, t, HdrOutbound)
  }

  /** Messages from one of our clients to ourselves, one after the other. */
  ghost function LoopedAll(r: R.Reg, msgs: seq<Outgoing>): (b: R.Reg)
    ensures b.me == r.me
  {
    if msgs == [] then r else LoopedBack(LoopedAll(r, msgs[..|msgs| - 1]), msgs[|msgs| - 1].mtype)
  }

  /** A message from one of our clients to ourselves: offered outbound, then inbound. */
  ghost function LoopedBack(r: R.Reg, t: MsgType): R.Reg {
    R.Delivered(R.Delivered(R.Delivered(R.Delivered(r, r.me, t, FullOutbound), r.me, t, HdrOutbound),
                            r.me, t, FullInbound), r.me, t, HdrInbound)
  }

  /** What a client gets of messages to ourselves. */
  ghost function Looped(c: Client, me: Peer, msgs: seq<Outgoing>): seq<Notice> {
    if msgs == [] then [] else
      Looped(c, me, msgs[..|msgs| - 1])
      + R.OutboundCopy(c.options, me, msgs[|msgs| - 1].mtype)
      + R.InboundCopy(c.options, c.types, me, msgs[|msgs| - 1].mtype)
  }

  /** Of each message to ourselves every client gets the outbound copy it wants, then the inbound copy it wants. */
  lemma {:induction false} LoopedInOrder(r: R.Reg, msgs: seq<Outgoing>, h: Handle)
    requires h in r.clients && R.OptionsExact(r.options, r.clients)
    ensures var b := LoopedAll(r, msgs);
            && h in b.clients && R.OptionsExact(b.options, b.clients)
            && b.clients[h].types == r.clients[h].types && b.clients[h].options == r.clients[h].options
            && R.TrafficOf(b.clients[h].outbox) ==
                 R.TrafficOf(r.clients[h].outbox) + Looped(r.clients[h], r.me, msgs)
  {
    hide R.OptionsExact, R.TrafficOf, R.Delivered, R.OutboundCopy, R.InboundCopy;
    if msgs != [] {
      var k := |msgs| - 1;
      LoopedInOrder(r, msgs[..k], h);
      var a := LoopedAll(r, msgs[..k]);
      R.AtMostOneCopy(a, a.me, msgs[k].mtype, h);
      R.DeliveredMe(a, msgs[k].mtype);
      R.AtMostOneCopy(Watched(a, a.me, msgs[k].mtype), a.me, msgs[k].mtype, h);
    }
  }

  lemma Arrived(a: map<Handle, Client>, b: map<Handle, Client>, c: map<Handle, Client>, h: Handle)
    requires AllTypes(a) == AllTypes(b)
    requires h !in b && c.Keys == b.Keys + {h} && forall k :: k in b ==> c[k] == b[k]
    ensures AllTypes(c) == AllTypes(a) + multiset(c[h].types)
  {
    AllTypesWithout(c, h);
    assert c - {h} == b;
  }

  lemma Left(a: map<Handle, Client>, b: map<Handle, Client>, h: Handle)
    requires h in a && b.Keys == a.Keys - {h} && forall k :: k in b ==> b[k] == a[k]
    ensures AllTypes(a) == AllTypes(b) + multiset(a[h].types)
  {
    AllTypesWithout(a, h);
    assert a - {h} == b;
  }

  lemma SteadyFrame(a: R.Reg, b: R.Reg, c: R.Reg)
    requires Steady(a, b) && c.held == b.held && c.sessions.Keys == b.sessions.Keys && c.clients == b.clients
    ensures Steady(a, c)
  {}

  /** The send handler as a whole, from before the request was taken to after it was freed. */
  lemma Sent(o: R.Reg, a: R.Reg, c: R.Reg)
    requires Steady(a, c.(held := a.held)) && c.held == o.held
    requires a.sessions.Keys == o.sessions.Keys && a.clients.Keys == o.clients.Keys
    requires forall h :: h in o.clients ==> K.Continues(o.clients[h], a.clients[h])
    ensures Steady(o, c)
  {
    forall h | h in o.clients ensures K.Continues(o.clients[h], c.clients[h]) {
      assert K.Continues(a.clients[h], c.clients[h]);
    }
  }

  lemma SameTypes(a: R.Reg, b: R.Reg, p: Peer)
    requires K.Elsewhere(a, b, p)
    ensures AllTypes(a.clients) == AllTypes(b.clients)
  {
    forall h | h in a.clients ensures a.clients[h].types == b.clients[h].types {
      assert K.Continues(a.clients[h], b.clients[h]);
    }
    AllTypesFrame(a.clients, b.clients);
  }
}
