/**
 The key exchange with one peer (gnunet-service-core_kx.c).  A message carries
 the outcome of the cryptographic checks that are going to be made on it.
 */
module KeyExchange {
  import opened CoreTypes
  import opened ReplayWindow
  import R = Registry
  import T = Transmission

  /** The task stored in retry_set_key_task: none, a retry of the key, or the trigger of a rekey. */
  datatype Task = NoTask | Retry | TriggerRekey

  /** What makes an exchange that is up forget to rekey. */
  datatype Mishap = BehindKey | LookupFailed

  /** A SET_KEY message: is its signature valid, and can its session key be decrypted? */
  datatype SetKey = SetKey(wellFormed: bool, forMe: bool, signed: bool, decryptable: bool, created: nat, sender: Status)

  /** A PING or PONG: does it decrypt to what it should, our identity or our challenge? */
  datatype Probe = Probe(wellFormed: bool, right: bool)

  /** A message inside an encrypted one: a type map (absent if malformed) or a message for clients. */
  datatype Inner = TypeMapMsg(tmap: Option<set<MsgType>>) | Data(mtype: MsgType)

  /** An encrypted message: is its checksum right, and its time stamp not too old? */
  datatype Encrypted = Encrypted(wellFormed: bool, authentic: bool, recent: bool, snum: Seq32, payload: seq<Inner>)

  /** The state of an exchange. */
  datatype Exchange = Exchange(
    status: Status,
    hasKey: bool,
    lookup: bool,
    retry: Task,
    keepAlive: bool,
    skm: Option<SetKey>,
    ping: Option<Probe>,
    pong: Option<Probe>,
    emsg: Option<Encrypted>,
    created: nat,
    epoch: seq<Seq32>,
    mishaps: seq<Mishap>)

  /** The same client, possibly told more. */
  ghost predicate Continues(c: Client, c': Client) {
    c'.types == c.types && (c.asked ==> c'.asked) && c.outbox <= c'.outbox
  }

  /** Everything in the tables that does not concern one peer's session is still there. */
  ghost predicate Elsewhere(a: R.Reg, b: R.Reg, p: Peer) {
    && b.held == a.held && b.clients.Keys == a.clients.Keys
    && (forall h :: h in a.clients ==> Continues(a.clients[h], b.clients[h]))
    && (forall q :: q != p ==> (q in a.sessions <==> q in b.sessions))
  }

  lemma ElsewhereRefl(a: R.Reg, p: Peer)
    ensures Elsewhere(a, a, p)
  {}

  lemma ElsewhereTrans(a: R.Reg, b: R.Reg, c: R.Reg, p: Peer)
    requires Elsewhere(a, b, p) && Elsewhere(b, c, p)
    ensures Elsewhere(a, c, p)
  {}

  lemma DrainedElsewhere(a: R.Reg, b: R.Reg, p: Peer)
    requires R.Drained(a, b, p)
    ensures Elsewhere(a, b, p)
  {
    forall h | h in a.clients ensures Continues(a.clients[h], b.clients[h]) {
      assert R.ClientDrained(a.clients[h], b.clients[h], p);
    }
  }

  lemma ToldElsewhere(a: R.Reg, b: R.Reg, p: Peer)
    requires R.Told(a, b)
    ensures Elsewhere(a, b, p) && b.sessions.Keys == a.sessions.Keys
  {
    forall h | h in a.clients ensures Continues(a.clients[h], b.clients[h]) {
      assert R.SameAccount(a.clients[h], b.clients[h]);
    }
  }

  lemma SetTypemapElsewhere(a: R.Reg, b: R.Reg, p: Peer)
    requires b.held == a.held && b.sessions.Keys == a.sessions.Keys
    requires b.clients == a.clients || exists was, now :: b.clients == R.NotifiedAll(a.clients, p, was, now)
    ensures Elsewhere(a, b, p)
  {}

  predicate Live(s: Status) {
    s == Up || s == Rekey || s == RekeySent
  }

  /** The status we put into our key message; a rekey in progress is not told. */
  function Claim(s: Status): Status {
    if s == RekeySent then KeyReceived else s
  }

  /** States in which a PING is answered and an encrypted message is looked at. */
  predicate Answers(s: Status) {
    s == KeyReceived || s == Up || s == RekeySent
  }

  /** The peer has not installed our key yet. */
  predicate Behind(sender: Status) {
    sender == Down || sender == KeySent
  }

  /** The key is going to be installed. */
  predicate Installable(v: Exchange, m: SetKey) {
    && v.hasKey && m.wellFormed && m.forMe && m.signed && m.decryptable
    && !((v.status == KeyReceived || v.status == Up) && m.created < v.created)
  }

  /** The status after the peer's key was installed. */
  function KeyMoved(s: Status, sender: Status, pong: Option<Probe>): Status {
    match s
    case KeySent => if pong.Some? && pong.value.right then Up else KeyReceived
    case Rekey => if Behind(sender) then RekeySent else Rekey
    case _ => s
  }

  /** What an installed key is answered with, apart from a deferred PING: only a rekeying exchange sends its key. */
  function Reply(s: Status, sender: Status): seq<T.Handshake> {
    if Behind(sender) && (s == Rekey || s == RekeySent) then [T.Key(KeyReceived), T.Ping] else []
  }

  /** What a PING is answered with. */
  function PingAnswer(s: Status, ping: Option<Probe>): seq<T.Handshake> {
    if Answers(s) && ping.Some? && ping.value.wellFormed && ping.value.right then [T.Pong] else []
  }

  /** What a key is answered with: a deferred PING is answered if it can be now. */
  function KeyAnswer(v: Exchange, m: SetKey): seq<T.Handshake> {
    if !Installable(v, m) then []
    else Reply(v.status, m.sender) + PingAnswer(KeyMoved(v.status, m.sender, None), v.ping)
  }

  /** What we send of our own accord. */
  function Sends(v: Exchange): seq<T.Handshake> {
    if v.status == Up || !v.hasKey then [] else [T.Key(Claim(Sent(v).status)), T.Ping]
  }

  /** An exchange that sent its key, unless it is up or lacks the public key. */
  function Sent(v: Exchange): Exchange {
    if v.status == Up then v.(retry := NoTask)
    else if !v.hasKey then v.(retry := NoTask, lookup := true)
    else v.(retry := Retry,
            status := match v.status case Down => KeySent case Rekey => RekeySent case s => s)
  }

  /** An exchange that is up and is going to rekey. */
  function CameUp(v: Exchange): Exchange {
    v.(status := Up, retry := TriggerRekey, keepAlive := true, mishaps := [])
  }

  /** An exchange after a key of the peer: kept for later, ignored, or installed. */
  function Keyed(v: Exchange, m: SetKey): Exchange {
    if m.wellFormed && !v.hasKey then v.(skm := Some(m))
    else if !Installable(v, m) then v
    else
      var behind := v.status == Up && Behind(m.sender);
      var w := v.(
        status := KeyMoved(v.status, m.sender, v.pong),
        created := m.created,
        epoch := if m.created == v.created then v.epoch else [],
        ping := if Answers(KeyMoved(v.status, m.sender, None)) then None else v.ping,
        pong := None,
        retry := if behind then NoTask else v.retry,
        mishaps := v.mishaps + if behind then [BehindKey] else []);
      if w.status == Up && v.status != Up then CameUp(w) else w
  }

  /** An exchange whose status moved on with the peer's key. */
  function Advanced(v: Exchange, sender: Status): Exchange {
    var behind := v.status == Up && Behind(sender);
    v.(status := KeyMoved(v.status, sender, None),
       retry := if behind then NoTask else v.retry,
       mishaps := v.mishaps + if behind then [BehindKey] else [])
  }

  /** An exchange whose deferred PING was processed, and one whose deferred PONG was. */
  function PingResumed(v: Exchange): Exchange {
    if Answers(v.status) then v.(ping := None) else v
  }

  function PongResumed(v: Exchange): Exchange {
    var w := v.(pong := None);
    if v.pong.Some? && v.pong.value.right then CameUp(w) else w
  }

  /** Installing a key, step by step. */
  lemma KeyedSteps(v: Exchange, m: SetKey)
    requires Installable(v, m) && (v.pong.Some? ==> v.status == KeySent) && v.status != Down
    ensures var w := v.(created := m.created, epoch := if m.created == v.created then v.epoch else []);
            Keyed(v, m) == PongResumed(PingResumed(Advanced(w, m.sender)))
  {}

  /** An exchange after a PING. */
  function Pinged(v: Exchange, m: Probe): Exchange {
    if m.wellFormed && !Answers(v.status) then v.(ping := Some(m)) else v
  }

  /** An exchange after a PONG. */
  function Ponged(v: Exchange, m: Probe): Exchange {
    if !m.wellFormed || v.status == Down then v
    else if v.status == KeySent then v.(pong := Some(m))
    else if !m.right then v
    else if v.status == KeyReceived then
      CameUp(v).(emsg := None,
                 epoch := if v.emsg.Some? then Judged(v.epoch, v.emsg.value) else v.epoch)
    else if v.status == RekeySent then CameUp(v)
    else v.(keepAlive := true)
  }

  /** The sequence numbers judged so far. */
  function Judged(epoch: seq<Seq32>, m: Encrypted): seq<Seq32> {
    if m.wellFormed && m.authentic then epoch + [m.snum] else epoch
  }

  /** The message is authentic and recent, and its number is accepted. */
  ghost predicate Passes(epoch: seq<Seq32>, m: Encrypted) {
    && m.wellFormed && m.authentic && m.recent
    && VerdictAt(epoch + [m.snum], |epoch|) != Rejected
  }

  /** An exchange after an encrypted message. */
  ghost function Unsealed(v: Exchange, m: Encrypted): Exchange {
    if !m.wellFormed || !Answers(v.status) then v
    else if v.status == KeyReceived then v.(emsg := Some(m))
    else v.(epoch := Judged(v.epoch, m), keepAlive := v.keepAlive || Passes(v.epoch, m))
  }

  /** An exchange whose lookup found the public key. */
  function Found(v: Exchange, extractable: bool): Exchange {
    if v.hasKey || !extractable then v else
      var w := Sent(v.(hasKey := true, skm := None));
      if v.skm.Some? then Keyed(w, v.skm.value) else w
  }

  /** What is sent once the public key is known. */
  function FoundAnswer(v: Exchange, extractable: bool): seq<T.Handshake> {
    if v.hasKey || !extractable then [] else
      var w := v.(hasKey := true, skm := None);
      Sends(w) + if v.skm.Some? then KeyAnswer(Sent(w), v.skm.value) else []
  }

  /** A message of the handshake arrives. */
  datatype Delivery = GotKey(key: SetKey) | GotPing(ping: Probe) | GotPong(pong: Probe)

  function Handled(v: Exchange, d: Delivery): Exchange {
    match d
    case GotKey(m) => Keyed(v, m)
    case GotPing(m) => Pinged(v, m)
    case GotPong(m) => Ponged(v, m)
  }

  function Answered(v: Exchange, d: Delivery): seq<T.Handshake> {
    match d
    case GotKey(m) => KeyAnswer(v, m)
    case GotPing(m) => PingAnswer(v.status, Some(m))
    case GotPong(_) => []
  }

  /** In whatever order the peer's key, PING and PONG arrive, the exchange comes up and answers with one PONG. */
  lemma AnyOrder(v: Exchange, k: SetKey, p: Probe, q: Probe, a: Delivery, b: Delivery, c: Delivery)
    requires v.status == KeySent && v.hasKey && v.ping == v.pong == None && Installable(v, k)
    requires p == q == Probe(true, true) && multiset{a, b, c} == multiset{GotKey(k), GotPing(p), GotPong(q)}
    ensures var v1 := Handled(v, a); var v2 := Handled(v1, b); var v3 := Handled(v2, c);
            && v3.status == Up && v3.retry == TriggerRekey && v3.created == k.created
            && v3.ping == v3.pong == None
            && Answered(v, a) + Answered(v1, b) + Answered(v2, c) == [T.Pong]
  {
    assert a in multiset{a, b, c} && b in multiset{a, b, c} && c in multiset{a, b, c};
    var x, y, z := GotKey(k), GotPing(p), GotPong(q);
    assert multiset{a, b, c}[x] == 1 && multiset{a, b, c}[y] == 1 && multiset{a, b, c}[z] == 1;
  }

  /** The tables after the messages inside an encrypted message from a peer were passed on. */
  ghost function Received(r: R.Reg, p: Peer, payload: seq<Inner>): (b: R.Reg)
    requires p != r.me && p in r.sessions
    ensures p != b.me && p in b.sessions
  {
    if payload == [] then r else
      var a := Received(r, p, payload[..|payload| - 1]);
      match payload[|payload| - 1]
      case TypeMapMsg(None) => a
      case TypeMapMsg(Some(m)) =>
        a.(sessions := a.sessions[p := a.sessions[p].(tmap := m)],
           clients := R.NotifiedAll(a.clients, p, Some(a.sessions[p].tmap), Some(m)))
      case Data(t) => R.Delivered(R.Delivered(a, p, t, FullInbound), p, t, HdrInbound)
  }

  lemma ReceivedStep(r: R.Reg, p: Peer, payload: seq<Inner>, k: nat)
    requires p != r.me && p in r.sessions && k <= |payload|
    ensures k == 0 ==> Received(r, p, payload[..k]) == r
    ensures k > 0 ==>
              var a := Received(r, p, payload[..k - 1]);
              Received(r, p, payload[..k]) == match payload[k - 1]
                case TypeMapMsg(None) => a
                case TypeMapMsg(Some(m)) =>
                  a.(sessions := a.sessions[p := a.sessions[p].(tmap := m)],
                     clients := R.NotifiedAll(a.clients, p, Some(a.sessions[p].tmap), Some(m)))
                case Data(t) => R.Delivered(R.Delivered(a, p, t, FullInbound), p, t, HdrInbound)
  {
    hide R.NotifiedAll, R.Delivered;
    if k > 0 {
      assert payload[..k][..k - 1] == payload[..k - 1];
    }
  }

  /** The tables with a new session. */
  ghost function Opened(r: R.Reg, p: Peer): (b: R.Reg)
    ensures p in b.sessions && b.me == r.me
  {
    r.(sessions := r.sessions[p := Session({}, [])], clients := R.NotifiedAll(r.clients, p, None, Some({})))
  }

  /** The tables after an encrypted message, whose content is passed on exactly if it passes all checks. */
  ghost function Unpacked(r: R.Reg, p: Peer, epoch: seq<Seq32>, m: Encrypted): R.Reg
    requires p != r.me && p in r.sessions
  {
    if Passes(epoch, m) then Received(r, p, m.payload) else r
  }

  /** The tables after the first confirmation of our key. */
  ghost function Established(r: R.Reg, p: Peer, v: Exchange): R.Reg
    requires p != r.me
  {
    if v.emsg.Some? then Unpacked(Opened(r, p), p, v.epoch, v.emsg.value) else Opened(r, p)
  }

  /** A peer's type map after its messages: the last one announced, and the types of the messages since. */
  ghost function Learned(tmap: set<MsgType>, payload: seq<Inner>): set<MsgType> {
    if payload == [] then tmap else
      var m := Learned(tmap, payload[..|payload| - 1]);
      match payload[|payload| - 1]
      case TypeMapMsg(None) => m
      case TypeMapMsg(Some(n)) => n
      case Data(t) => m + {t}
  }

  /** What a client gets of them. */
  ghost function HeardOf(c: Client, p: Peer, payload: seq<Inner>): seq<Notice> {
    if payload == [] then [] else
      HeardOf(c, p, payload[..|payload| - 1]) +
      match payload[|payload| - 1]
      case TypeMapMsg(_) => []
      case Data(t) => R.InboundCopy(c.options, c.types, p, t)
  }

  /** The messages inside an encrypted one take effect in their order: the type map is the last one announced with the
      types used since, and a client gets one copy of each message it wants. */
  lemma {:induction false} ReceivedInOrder(r: R.Reg, p: Peer, payload: seq<Inner>, h: Handle)
    requires p != r.me && p in r.sessions && h in r.clients && R.OptionsExact(r.options, r.clients)
    ensures var b := Received(r, p, payload);
            && b.sessions[p].tmap == Learned(r.sessions[p].tmap, payload)
            && h in b.clients && R.OptionsExact(b.options, b.clients)
            && b.clients[h].types == r.clients[h].types && b.clients[h].options == r.clients[h].options
            && R.TrafficOf(b.clients[h].outbox) ==
                 R.TrafficOf(r.clients[h].outbox) + HeardOf(r.clients[h], p, payload)
  {
    hide R.OptionsExact, R.TrafficOf, R.NotifiedAll, R.Delivered, R.InboundCopy;
    if payload != [] {
      var k := |payload| - 1;
      ReceivedInOrder(r, p, payload[..k], h);
      var a := Received(r, p, payload[..k]);
      match payload[k] {
        case TypeMapMsg(None) =>
        case TypeMapMsg(Some(m)) => AnnouncedOnly(a, p, m, h);
        case Data(t) =>
          R.AtMostOneCopy(a, p, t, h);
          LearnsType(a, p, t);
      }
    }
  }

  lemma LearnsType(r: R.Reg, p: Peer, t: MsgType)
    requires p != r.me && p in r.sessions
    ensures var b := R.Delivered(R.Delivered(r, p, t, FullInbound), p, t, HdrInbound);
            p in b.sessions && b.sessions[p].tmap == r.sessions[p].tmap + {t}
  {}

  /** A new type map sends no client a message. */
  lemma AnnouncedOnly(r: R.Reg, p: Peer, m: set<MsgType>, h: Handle)
    requires p in r.sessions && h in r.clients && R.OptionsExact(r.options, r.clients)
    ensures var cs := R.NotifiedAll(r.clients, p, Some(r.sessions[p].tmap), Some(m));
            && h in cs && R.OptionsExact(r.options, cs)
            && cs[h].types == r.clients[h].types && cs[h].options == r.clients[h].options
            && R.TrafficOf(cs[h].outbox) == R.TrafficOf(r.clients[h].outbox)
  {
    hide R.TrafficOf, R.OptionsExact;
    R.TrafficAppend(r.clients[h].outbox, Notice.Connect(p));
    R.TrafficAppend(r.clients[h].outbox, Notice.Disconnect(p));
    R.OptionsFrame(r.options, r.clients, R.NotifiedAll(r.clients, p, Some(r.sessions[p].tmap), Some(m)));
  }

  class KeyExchange {
    const peer: Peer
    const tables: R.Tables
    const link: T.Link

    var status: Status
    var hasKey: bool                    // the neighbour's public key is known
    var ownKey: bool                    // our session key and SET_KEY message exist
    var lookup: bool                    // a lookup of the public key is running
    var retry: Task
    var keepAlive: bool                 // a keep-alive task is pending
    var skmReceived: Option<SetKey>     // messages deferred until they can be processed
    var pingReceived: Option<Probe>
    var pongReceived: Option<Probe>
    var emsgReceived: Option<Encrypted>
    var decryptCreated: nat
    var newest: Seq32
    var bitmap: Word
    ghost var epoch: seq<Seq32>         // sequence numbers judged under the current key
    ghost var mishaps: seq<Mishap>      // what happened to the rekey trigger since the exchange last came up

    ghost function View(): Exchange
      reads this
    {
      Exchange(status, hasKey, lookup, retry, keepAlive, skmReceived, pingReceived, pongReceived, emsgReceived,
               decryptCreated, epoch, mishaps)
    }

    ghost predicate WindowOk()
      reads this
    {
      Window(newest, bitmap) == After(epoch)
    }

    /** The key exchange always has something to wait for. */
    ghost predicate Progress()
      reads this
    {
      && (!hasKey ==> status == Down && retry != TriggerRekey && (lookup <==> retry == NoTask))
      && (hasKey ==> status != Down && ownKey && (status != Up ==> retry == Retry))
      && (retry == TriggerRekey ==> status == Up)
    }

    /** An exchange that is up is going to rekey exactly if nothing took its trigger away since it came up. */
    ghost predicate Triggered()
      reads this
    {
      status == Up ==> (retry == TriggerRekey <==> mishaps == [])
    }

    /** Messages are deferred only while their processing has to wait. */
    ghost predicate Deferred()
      reads this
    {
      && (skmReceived.Some? ==> !hasKey)
      && (pingReceived.Some? ==> pingReceived.value.wellFormed)
      && (pongReceived.Some? ==> status == KeySent && pongReceived.value.wellFormed)
      && (emsgReceived.Some? ==> status == KeyReceived)
    }

    /** The session exists exactly while the exchange is up or rekeying. */
    ghost predicate Wired()
      reads this, link, tables
    {
      && link.peer == peer && link.tables == tables && link.Valid()
      && (link.up <==> Live(status))
    }

    /** What this object and its link keep of their own. */
    ghost predicate Local()
      reads this, link
    {
      && link.peer == peer && link.tables == tables && link.Local() && (link.up <==> Live(status))
      && Progress() && Triggered() && Deferred() && WindowOk() && (keepAlive <==> Live(status))
    }

    ghost predicate Valid()
      reads this, link, tables
    {
      Wired() && Progress() && Triggered() && Deferred() && WindowOk() && (keepAlive <==> Live(status))
    }

    lemma ValidSplit()
      ensures Valid() <==> Local() && link.Wired()
    {}

    /** Start the key exchange: look up the public key. */
    constructor (peer: Peer, tables: R.Tables, world: T.World)
      requires tables.Valid() && peer != tables.me && peer !in tables.sessions
      ensures Valid() && this.peer == peer && this.tables == tables && fresh(link) && link.world == world
      ensures View() == Exchange(Down, false, true, NoTask, false, None, None, None, None, 0, [], [])
      ensures link.emitted == []
    {
      this.peer, this.tables := peer, tables;
      link := new T.Link(peer, tables, world);
      status, hasKey, ownKey, lookup, retry, keepAlive := Down, false, false, true, NoTask, false;
      skmReceived, pingReceived, pongReceived, emsgReceived := None, None, None, None;
      decryptCreated, newest, bitmap, epoch, mishaps := 0, 0, Zero, [], [];
    }

    /** Send our key and a PING, unless we are up or lack the public key. */
    method SendKey()
      requires Wired() && tables.held == {}
      requires !hasKey ==> status == Down
      requires hasKey && status != Down ==> ownKey
      modifies this`status, this`ownKey, this`lookup, this`retry, link, tables
      ensures Wired() && Elsewhere(old(tables.Snap()), tables.Snap(), peer) && tables.held == {}
      ensures Progress()
      ensures status == (if !hasKey then Down else match old(status)
                         case Down => KeySent
                         case Rekey => RekeySent
                         case s => s)
      ensures old(Live(status)) <==> Live(status)
      ensures old(status) == Up ==> retry == NoTask
      ensures !hasKey ==> lookup
      ensures View() == Sent(old(View()))
      ensures T.Said(link.emitted) == old(T.Said(link.emitted)) + Sends(old(View()))
      ensures link.Extends(old(link.emitted), old(link.fates))
    {
      hide R.RegOk, R.Drained, Elsewhere, T.Said, T.Link.Local;
      ElsewhereRefl(tables.Snap(), peer);
      retry := NoTask;
      if status == Up {
        return;
      }
      if !hasKey {
        if lookup {
          return;
        }
        lookup := true;
        return;
      }
      match status {
        case Down =>
          status := KeySent;
          ownKey := true;
        case Rekey =>
          status := RekeySent;
          ownKey := true;
        case _ =>
      }
      SendKeyAndPing();
      retry := Retry;
    }

    /** Never tells the peer that we are up or rekeying. */
    method SendKeyAndPing()
      requires Wired() && (status == KeySent || status == KeyReceived || status == RekeySent)
      modifies link, tables
      ensures Wired() && Elsewhere(old(tables.Snap()), tables.Snap(), peer) && tables.held == old(tables.held)
      ensures T.Said(link.emitted) == old(T.Said(link.emitted)) + [T.Key(Claim(status)), T.Ping]
      ensures link.Extends(old(link.emitted), old(link.fates))
      ensures Claim(status) == KeySent || Claim(status) == KeyReceived
    {
      hide R.RegOk, R.Drained, T.Said, T.Link.Local;
      ghost var a := tables.Snap();
      link.SendControl(T.Key(if status == RekeySent then KeyReceived else status));
      ghost var b := tables.Snap();
      link.SendControl(T.Ping);
      DrainedElsewhere(a, b, peer);
      DrainedElsewhere(b, tables.Snap(), peer);
      ElsewhereTrans(a, b, tables.Snap(), peer);
    }

    // ---- the lookup of the public key

    /** The lookup failed: try again later. */
    method HelloError()
      requires Valid() && lookup
      modifies this`lookup, this`retry, this`mishaps
      ensures Valid()
      ensures View() == old(View()).(lookup := false, retry := Retry, mishaps := old(mishaps) + [LookupFailed])
    {
      lookup := false;
      retry := Retry;
      mishaps := mishaps + [LookupFailed];
    }

    /** The lookup is over. */
    method HelloEnd()
      requires Valid() && lookup
      modifies this`lookup, this`retry
      ensures Valid()
      ensures View() == old(View()).(lookup := false, retry := if hasKey then old(retry) else Retry)
    {
      lookup := false;
      if hasKey {
        return;
      }
      retry := Retry;
    }

    /** The lookup found a HELLO, from which the key can be extracted or not. */
    method HelloFound(extractable: bool)
      requires Valid() && tables.held == {} && lookup
      modifies this, link, tables
      ensures Valid() && tables.held == {} && Elsewhere(old(tables.Snap()), tables.Snap(), peer)
      ensures View() == Found(old(View()), extractable)
      ensures hasKey <==> old(hasKey) || extractable
      ensures !old(hasKey) && extractable ==> status == KeySent || (old(skmReceived).Some? && status == KeyReceived)
      ensures T.Said(link.emitted) == old(T.Said(link.emitted)) + FoundAnswer(old(View()), extractable)
      ensures link.Extends(old(link.emitted), old(link.fates))
    {
      hide R.RegOk, R.Drained, Elsewhere, After, T.Said, T.Link.Valid;
      ElsewhereRefl(tables.Snap(), peer);
      if hasKey {
        return;
      }
      assert retry == NoTask;
      if !extractable {
        return;
      }
      hasKey := true;
      ghost var a := tables.Snap();
      var deferred := skmReceived;
      skmReceived := None;
      SendKey();
      if deferred.Some? {
        ghost var b := tables.Snap();
        HandleSetKey(deferred.value);
        ElsewhereTrans(a, b, tables.Snap(), peer);
      }
    }

    // ---- messages of the key exchange

    /** The other peer's session key. */
    method HandleSetKey(m: SetKey)
      requires Valid() && tables.held == {}
      modifies this, link, tables
      ensures Valid() && tables.held == {} && Elsewhere(old(tables.Snap()), tables.Snap(), peer)
      ensures View() == Keyed(old(View()), m)
      ensures !Installable(old(View()), m) ==> unchanged(link) && unchanged(tables)
      ensures T.Said(link.emitted) == old(T.Said(link.emitted)) + KeyAnswer(old(View()), m)
      ensures link.Extends(old(link.emitted), old(link.fates))
    {
      hide R.RegOk, R.Drained, Elsewhere, After, T.Said, T.Link.Valid;
      ElsewhereRefl(tables.Snap(), peer);
      if !m.wellFormed {
        return;
      }
      if !hasKey {
        skmReceived := Some(m);
        return;
      }
      if !m.forMe {
        return;
      }
      if !m.signed {
        return;
      }
      if (status == KeyReceived || status == Up) && m.created < decryptCreated {
        return;
      }
      if !m.decryptable {
        return;
      }
      AcceptKey(m);
    }

    /** The key passed all checks. */
    method AcceptKey(m: SetKey)
      requires Valid() && tables.held == {} && Installable(View(), m)
      modifies this, link, tables
      ensures Valid() && tables.held == {} && Elsewhere(old(tables.Snap()), tables.Snap(), peer)
      ensures View() == Keyed(old(View()), m)
      ensures T.Said(link.emitted) == old(T.Said(link.emitted)) + KeyAnswer(old(View()), m)
      ensures link.Extends(old(link.emitted), old(link.fates))
    {
      hide R.RegOk, R.Drained, Elsewhere, After, T.Said, T.Link.Valid;
      hide Keyed, Advanced, PingResumed, PongResumed;
      KeyedSteps(View(), m);
      InstallKey(m.created);
      KeyInstalled(m.sender);
    }

    /** The peer's key is installed: our status moves on and deferred messages are processed. */
    method KeyInstalled(sender: Status)
      requires Valid() && tables.held == {} && hasKey
      modifies this, link, tables
      ensures Valid() && tables.held == {} && Elsewhere(old(tables.Snap()), tables.Snap(), peer)
      ensures View() == PongResumed(PingResumed(Advanced(old(View()), sender)))
      ensures status == KeyMoved(old(status), sender, old(pongReceived))
      // although the peer is behind, an exchange that is up sends no key, and forgets to rekey
      ensures old(status) == Up ==> retry == if Behind(sender) then NoTask else old(retry)
      ensures old(status) == Up ==> mishaps == old(mishaps) + if Behind(sender) then [BehindKey] else []
      ensures T.Said(link.emitted) == old(T.Said(link.emitted)) + Reply(old(status), sender) +
                PingAnswer(KeyMoved(old(status), sender, None), old(pingReceived))
      ensures link.Extends(old(link.emitted), old(link.fates))
    {
      hide R.RegOk, R.Drained, Elsewhere, After, T.Said, T.Link.Valid;
      ghost var a := tables.Snap();
      AdvanceStatus(sender);
      ghost var b := tables.Snap();
      ResumePing();
      ghost var c := tables.Snap();
      ElsewhereTrans(a, b, c, peer);
      ResumePong();
      ElsewhereTrans(a, c, tables.Snap(), peer);
    }

    /** A deferred PING is processed once the peer's key is there. */
    method ResumePing()
      requires Wired() && (pingReceived.Some? ==> pingReceived.value.wellFormed)
      modifies this`pingReceived, link, tables
      ensures Wired() && tables.held == old(tables.held) && Elsewhere(old(tables.Snap()), tables.Snap(), peer)
      ensures View() == PingResumed(old(View()))
      ensures T.Said(link.emitted) == old(T.Said(link.emitted)) + PingAnswer(status, old(pingReceived))
      ensures link.Extends(old(link.emitted), old(link.fates))
    {
      hide R.RegOk, R.Drained, Elsewhere, After, T.Said, T.Link.Valid;
      ElsewhereRefl(tables.Snap(), peer);
      if pingReceived.Some? {
        var ping := pingReceived.value;
        pingReceived := None;
        HandlePing(ping);
      }
    }

    /** A deferred PONG is processed once the peer's key is there. */
    method ResumePong()
      requires Wired() && Progress() && Triggered() && WindowOk() && (keepAlive <==> Live(status))
      requires tables.held == {} && hasKey
      requires emsgReceived.Some? ==> status == KeyReceived
      requires pingReceived.Some? ==> pingReceived.value.wellFormed
      requires pongReceived.Some? ==> status == KeyReceived && emsgReceived.None? && pongReceived.value.wellFormed
      requires skmReceived.None?
      modifies this, link, tables
      ensures Valid() && tables.held == {} && Elsewhere(old(tables.Snap()), tables.Snap(), peer)
      ensures View() == PongResumed(old(View()))
      ensures link.emitted == old(link.emitted) && link.fates == old(link.fates)
    {
      hide R.RegOk, R.Drained, Elsewhere, After, T.Said, T.Link.Valid, Established;
      ElsewhereRefl(tables.Snap(), peer);
      if pongReceived.Some? {
        var pong := pongReceived.value;
        pongReceived := None;
        HandlePong(pong);
      }
    }

    method AdvanceStatus(sender: Status)
      requires Valid() && tables.held == {} && hasKey
      modifies this`status, this`ownKey, this`lookup, this`retry, this`mishaps, link, tables
      ensures Wired() && Progress() && Triggered() && (keepAlive <==> Live(status))
      ensures emsgReceived.Some? ==> status == KeyReceived
      ensures tables.held == {} && Elsewhere(old(tables.Snap()), tables.Snap(), peer)
      ensures View() == Advanced(old(View()), sender)
      ensures link.Extends(old(link.emitted), old(link.fates))
      ensures pongReceived.Some? ==> status == KeyReceived
      ensures old(status) == KeySent ==> emsgReceived.None?
      ensures old(status) == Up ==> retry == if Behind(sender) then NoTask else old(retry)
      ensures mishaps == old(mishaps) + if old(status) == Up && Behind(sender) then [BehindKey] else []
      ensures T.Said(link.emitted) == old(T.Said(link.emitted)) + Reply(old(status), sender)
    {
      hide R.RegOk, R.Drained, Elsewhere, After, T.Said, T.Link.Valid;
      ElsewhereRefl(tables.Snap(), peer);
      match status {
        case Down => assert false;
        case KeySent => status := KeyReceived;
        case KeyReceived =>
        case Up =>
          if Behind(sender) {
            mishaps := mishaps + [BehindKey];
            SendKey();
          }
        case _ =>
          if Behind(sender) {
            SendKey();
          }
      }
    }

    /** A key with another creation time starts a new epoch of sequence numbers. */
    method InstallKey(created: nat)
      requires WindowOk()
      modifies this`decryptCreated, this`newest, this`bitmap, this`epoch
      ensures WindowOk() && decryptCreated == created
      ensures epoch == if created == old(decryptCreated) then old(epoch) else []
    {
      if decryptCreated != created {
        newest, bitmap, decryptCreated := 0, Zero, created;
        epoch := [];
      }
    }

    /** A PING is answered by a PONG, or deferred. */
    method HandlePing(m: Probe)
      requires Wired()
      modifies this`pingReceived, link, tables
      ensures Wired() && tables.held == old(tables.held) && Elsewhere(old(tables.Snap()), tables.Snap(), peer)
      ensures View() == Pinged(old(View()), m)
      ensures T.Said(link.emitted) == old(T.Said(link.emitted)) + PingAnswer(status, Some(m))
      ensures link.Extends(old(link.emitted), old(link.fates))
    {
      hide R.RegOk, R.Drained, T.Said, T.Link.Local;
      ElsewhereRefl(tables.Snap(), peer);
      if !m.wellFormed {
        return;
      }
      if !Answers(status) {
        pingReceived := Some(m);
        return;
      }
      if !m.right {
        return;
      }
      ghost var a := tables.Snap();
      link.SendControl(T.Pong);
      DrainedElsewhere(a, tables.Snap(), peer);
    }

    /** A PONG confirms our key: the session is created, or a rekey completes. */
    method HandlePong(m: Probe)
      requires Valid() && tables.held == {}
      modifies this, link, tables
      ensures Valid() && tables.held == {} && Elsewhere(old(tables.Snap()), tables.Snap(), peer)
      ensures View() == Ponged(old(View()), m)
      ensures tables.Snap() == if old(status) == KeyReceived && status == Up
                then Established(old(tables.Snap()), peer, old(View())) else old(tables.Snap())
      ensures link.emitted == old(link.emitted) && link.fates == old(link.fates)
    {
      hide R.RegOk, R.Drained, Elsewhere, After, T.Said, T.Link.Valid, Established;
      ElsewhereRefl(tables.Snap(), peer);
      if !m.wellFormed || status == Down {
        return;
      }
      if status == KeySent {
        pongReceived := Some(m);
        return;
      }
      if !m.right {
        return;
      }
      match status {
        case Down => assert false;
        case KeySent => assert false;
        case KeyReceived =>
          Establish();
        case Up =>
          UpdateTimeout();
        case Rekey =>
          UpdateTimeout();
        case RekeySent =>
          status := Up;
          mishaps := [];
          ScheduleRekey();
          UpdateTimeout();
      }
    }

    /** The first confirmation: create the session and process what had to wait for it. */
    method Establish()
      requires Valid() && tables.held == {} && status == KeyReceived
      modifies this, link, tables
      ensures Valid() && tables.held == {} && Elsewhere(old(tables.Snap()), tables.Snap(), peer)
      ensures View() == Ponged(old(View()), Probe(true, true)) && status == Up
      ensures tables.Snap() == Established(old(tables.Snap()), peer, old(View()))
      ensures link.emitted == old(link.emitted) && link.fates == old(link.fates)
    {
      hide R.RegOk, R.Drained, Elsewhere, After, T.Said, T.Link.Valid, Received, Opened, Passes;
      ComeUp();
      assert !keepAlive;
      ghost var b := tables.Snap();
      ResumeEncrypted();
      ElsewhereTrans(old(tables.Snap()), b, tables.Snap(), peer);
      UpdateTimeout();
    }

    method ComeUp()
      requires Wired() && status == KeyReceived
      modifies this`status, this`retry, this`mishaps, link, tables
      ensures Wired() && tables.held == old(tables.held) && Elsewhere(old(tables.Snap()), tables.Snap(), peer)
      ensures status == Up && retry == TriggerRekey && mishaps == []
      ensures link.emitted == old(link.emitted) && link.fates == old(link.fates)
      ensures tables.Snap() == Opened(old(tables.Snap()), peer)
    {
      hide R.RegOk, R.Drained, Elsewhere, T.Link.Valid, Opened;
      status := Up;
      CreateSession();
      ScheduleRekey();
      mishaps := [];
    }

    /** A deferred message is processed once the session exists. */
    method ResumeEncrypted()
      requires Wired() && tables.held == {} && WindowOk() && status == Up
      modifies this`emsgReceived, this`newest, this`bitmap, this`epoch, this`keepAlive, tables
      ensures Wired() && tables.held == {} && Elsewhere(old(tables.Snap()), tables.Snap(), peer)
      ensures WindowOk() && emsgReceived == None && (keepAlive ==> old(keepAlive) || Live(status))
      ensures epoch == if old(emsgReceived).Some? then Judged(old(epoch), old(emsgReceived).value) else old(epoch)
      ensures tables.Snap() == if old(emsgReceived).Some?
                then Unpacked(old(tables.Snap()), peer, old(epoch), old(emsgReceived).value) else old(tables.Snap())
    {
      hide R.RegOk, R.Drained, Elsewhere, After, T.Link.Local, Received, Passes;
      ElsewhereRefl(tables.Snap(), peer);
      if emsgReceived.Some? {
        var emsg := emsgReceived.value;
        emsgReceived := None;
        HandleEncrypted(emsg);
      }
    }

    method CreateSession()
      requires link.peer == peer && link.tables == tables && link.Valid() && !link.up
      modifies link, tables
      ensures link.Valid() && link.up && tables.held == old(tables.held)
      ensures link.emitted == old(link.emitted) && link.fates == old(link.fates)
      ensures tables.Snap() == Opened(old(tables.Snap()), peer)
      ensures Elsewhere(old(tables.Snap()), tables.Snap(), peer)
    {
      hide R.RegOk;
      assert peer !in tables.sessions;
      tables.SessionCreate(peer);
      link.Start();
    }

    method EndSession()
      requires link.peer == peer && link.tables == tables && link.Valid() && tables.held == {}
      modifies link, tables
      ensures link.Valid() && !link.up && tables.held == {}
      ensures link.emitted == old(link.emitted) && link.fates == old(link.fates)
      ensures Elsewhere(old(tables.Snap()), tables.Snap(), peer)
    {
      hide R.RegOk;
      tables.SessionEnd(peer);
      link.Stop();
    }

    /** Activity was seen: push the keep-alive task back. */
    method UpdateTimeout()
      modifies this`keepAlive
      ensures keepAlive
    {
      keepAlive := true;
    }

    method ScheduleRekey()
      modifies this`retry
      ensures retry == TriggerRekey
    {
      retry := TriggerRekey;
    }

    /** Validate a sequence number against the window. */
    method CheckSequence(snum: Seq32) returns (accepted: bool)
      requires WindowOk()
      modifies this`newest, this`bitmap, this`epoch
      ensures WindowOk() && epoch == old(epoch) + [snum]
      ensures accepted <==> VerdictAt(epoch, |old(epoch)|) != Rejected
    {
      hide After;
      epoch := epoch + [snum];
      assert epoch[..|epoch| - 1] == old(epoch);
      AfterSnoc(epoch);
      if newest == snum {
        return false;
      }
      if newest > snum && newest - snum > 32 {
        return false;
      }
      if newest > snum {
        var rotbit := newest - snum - 1;
        if bitmap[rotbit] {
          return false;
        }
        bitmap := bitmap[rotbit := true];
      }
      if newest < snum {
        var shift := snum - newest;
        if shift >= 32 {
          bitmap := Zero;
        } else {
          bitmap := ShiftLeft(bitmap, shift);
        }
        newest := snum;
      }
      return true;
    }

    /** An encrypted message: dropped, deferred, or delivered. */
    method HandleEncrypted(m: Encrypted)
      requires Wired() && tables.held == {} && WindowOk()
      modifies this`emsgReceived, this`newest, this`bitmap, this`epoch, this`keepAlive, tables
      ensures Wired() && tables.held == {} && Elsewhere(old(tables.Snap()), tables.Snap(), peer)
      ensures WindowOk()
      ensures View() == Unsealed(old(View()), m)
      ensures tables.Snap() == if status == Up || status == RekeySent
                then Unpacked(old(tables.Snap()), peer, old(epoch), m) else old(tables.Snap())
    {
      hide R.RegOk, R.Drained, Elsewhere, After, Received, T.Link.Local;
      ElsewhereRefl(tables.Snap(), peer);
      if !m.wellFormed {
        return;
      }
      if !Answers(status) {
        return;
      }
      if status == KeyReceived {
        emsgReceived := Some(m);
        return;
      }
      if !m.authentic {
        return;
      }
      var accepted := CheckSequence(m.snum);
      if !accepted {
        return;
      }
      if !m.recent {
        return;
      }
      UpdateTimeout();
      DeliverAll(m.payload);
    }

    /** Pass the messages inside an encrypted one on; the session must exist. */
    method DeliverAll(payload: seq<Inner>)
      requires link.peer == peer && link.tables == tables && link.Valid() && link.up
      modifies tables
      ensures link.Valid() && tables.held == old(tables.held) && Elsewhere(old(tables.Snap()), tables.Snap(), peer)
      ensures tables.Snap() == Received(old(tables.Snap()), peer, payload)
    {
      hide R.RegOk, R.Drained, Elsewhere, R.Told, R.Delivered, Received, T.Link.Local;
      ElsewhereRefl(tables.Snap(), peer);
      ghost var r := tables.Snap();
      ReceivedStep(r, peer, payload, 0);
      for i := 0 to |payload|
        invariant link.Valid() && link.up && tables.held == old(tables.held)
        invariant Elsewhere(r, tables.Snap(), peer)
        invariant tables.Snap() == Received(r, peer, payload[..i])
      {
        ghost var a := tables.Snap();
        ReceivedStep(r, peer, payload, i + 1);
        match payload[i] {
          case TypeMapMsg(m) =>
            tables.SetTypemap(peer, m);
            SetTypemapElsewhere(a, tables.Snap(), peer);
          case Data(t) =>
            assert peer in tables.sessions;
            tables.DeliverInbound(peer, t);
            ToldElsewhere(a, tables.Snap(), peer);
        }
        ElsewhereTrans(r, a, tables.Snap(), peer);
      }
      assert payload[..|payload|] == payload;
    }

    // ---- timers

    /** Retry sending our key. */
    method RetryTimer()
      requires Valid() && tables.held == {} && retry == Retry
      modifies this, link, tables
      ensures Valid() && tables.held == {} && Elsewhere(old(tables.Snap()), tables.Snap(), peer)
      ensures status == if old(status) == Rekey then RekeySent else old(status)
      ensures !hasKey ==> lookup
      ensures View() == Sent(old(View()))
      ensures T.Said(link.emitted) == old(T.Said(link.emitted)) +
                (if !hasKey || status == Up then [] else [T.Key(Claim(status)), T.Ping])
      ensures link.Extends(old(link.emitted), old(link.fates))
    {
      hide R.RegOk, R.Drained, Elsewhere, After, T.Said, T.Link.Valid;
      retry := NoTask;
      SendKey();
    }

    /** Time to rekey. */
    method RekeyTimer()
      requires Valid() && retry == TriggerRekey
      modifies this`status, this`retry
      ensures Valid() && old(status) == Up
      ensures View() == old(View()).(status := Rekey, retry := Retry)
    {
      assert status == Up;
      status := Rekey;
      retry := Retry;
    }

    /** Keep the session alive, or end it if the peer was silent for too long. */
    method KeepAliveTimer(timedOut: bool)
      requires Valid() && tables.held == {} && keepAlive
      modifies this, link, tables
      ensures Valid() && tables.held == {} && Elsewhere(old(tables.Snap()), tables.Snap(), peer)
      ensures View() == if timedOut then old(View()).(status := KeySent, retry := Retry, keepAlive := false)
                        else old(View())
      ensures timedOut ==> peer !in tables.sessions
      ensures T.Said(link.emitted) == old(T.Said(link.emitted)) +
                (if timedOut then [T.Key(KeySent), T.Ping] else [T.Ping])
      ensures link.Extends(old(link.emitted), old(link.fates))
    {
      hide R.RegOk, R.Drained, Elsewhere, After, T.Said, T.Link.Local;
      keepAlive := false;
      if timedOut {
        TimeOut();
        return;
      }
      ghost var a := tables.Snap();
      link.SendControl(T.Ping);
      DrainedElsewhere(a, tables.Snap(), peer);
      keepAlive := true;
    }

    /** The peer was silent for too long: the session ends and the exchange starts over. */
    method TimeOut()
      requires Wired() && Progress() && Deferred() && WindowOk() && Live(status) && !keepAlive && tables.held == {}
      modifies this`status, this`ownKey, this`lookup, this`retry, link, tables
      ensures Valid() && tables.held == {} && Elsewhere(old(tables.Snap()), tables.Snap(), peer)
      ensures View() == old(View()).(status := KeySent, retry := Retry) && peer !in tables.sessions
      ensures link.Extends(old(link.emitted), old(link.fates))
      ensures T.Said(link.emitted) == old(T.Said(link.emitted)) + [T.Key(KeySent), T.Ping]
    {
      hide R.RegOk, R.Drained, Elsewhere, After, T.Said, T.Link.Local;
      ghost var a := tables.Snap();
      EndSession();
      ghost var b := tables.Snap();
      status := Down;
      SendKey();
      ElsewhereTrans(a, b, tables.Snap(), peer);
    }
  }

  /** An exchange that came up, got the key of a peer that is not up, and is never going to rekey. */
  method ForgottenRekey() returns (kx: KeyExchange)
    ensures fresh(kx) && kx.Valid() && kx.status == Up && kx.retry == NoTask && kx.mishaps == [BehindKey]
  {
    hide R.RegOk, R.Drained, Elsewhere, After, T.Said, T.Link.Valid;
    var tables := new R.Tables(0);
    kx := new KeyExchange(1, tables, T.World(_ => true, _ => 0));
    kx.HelloFound(true);
    kx.KeyInstalled(KeySent);
    kx.Establish();
    kx.KeyInstalled(KeySent);
  }
}
