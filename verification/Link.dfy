/**
 Transmission to one peer: the queue of plaintext messages of its session
 (gnunet-service-core_sessions.c), their encryption into batches
 (gnunet-service-core_kx.c) and the queue of the neighbour towards the
 transport service (gnunet-service-core_neighbours.c).  The functions of the
 three files call each other recursively.
 */
module Transmission {
  import opened CoreTypes
  import R = Registry

  /** A client's message, or our own type map. */
  datatype Kind = Payload(id: nat) | Announcement

  /** A message ready for encryption. */
  datatype Entry = Entry(kind: Kind, size: nat, deadline: nat)

  /** A message of the key exchange; our key travels with our status. */
  datatype Handshake = Key(sender: Status) | Ping | Pong

  /** A message for the transport service: of the key exchange, or an encrypted batch. */
  datatype Wire = Control(msg: Handshake) | Sealed(seqno: nat, batch: seq<Entry>)

  ghost function Total(es: seq<Entry>): nat {
    if es == [] then 0 else Total(es[..|es| - 1]) + es[|es| - 1].size
  }

  /** The client messages among the entries, in order. */
  ghost function Ids(es: seq<Entry>): seq<nat> {
    if es == [] then [] else (match es[0].kind case Payload(i) => [i] case Announcement => []) + Ids(es[1..])
  }

  /** The client messages that were encrypted, in order. */
  ghost function SealedIds(ws: seq<Wire>): seq<nat> {
    if ws == [] then [] else
      SealedIds(ws[..|ws| - 1]) + (match ws[|ws| - 1] case Control(_) => [] case Sealed(_, b) => Ids(b))
  }

  /** The number of type maps among the entries. */
  ghost function Maps(es: seq<Entry>): nat {
    if es == [] then 0 else (if es[0].kind == Announcement then 1 else 0) + Maps(es[1..])
  }

  /** The number of type maps that were encrypted. */
  ghost function SealedMaps(ws: seq<Wire>): nat {
    if ws == [] then 0 else
      SealedMaps(ws[..|ws| - 1]) + (match ws[|ws| - 1] case Control(_) => 0 case Sealed(_, b) => Maps(b))
  }

  /** The messages of the key exchange, in order. */
  ghost function Said(ws: seq<Wire>): seq<Handshake> {
    if ws == [] then [] else
      Said(ws[..|ws| - 1]) + (match ws[|ws| - 1] case Control(m) => [m] case Sealed(_, _) => [])
  }

  lemma SaidAppend(ws: seq<Wire>, w: Wire)
    ensures Said(ws + [w]) == Said(ws) + (match w case Control(m) => [m] case Sealed(_, _) => [])
  {
    assert (ws + [w])[..|ws|] == ws;
  }

  lemma {:induction false} IdsAppend(a: seq<Entry>, b: seq<Entry>)
    ensures Ids(a + b) == Ids(a) + Ids(b) && Maps(a + b) == Maps(a) + Maps(b)
  {
    if a == [] {
      assert a + b == b;
    } else {
      assert (a + b)[1..] == a[1..] + b;
      IdsAppend(a[1..], b);
    }
  }

  /** A type map at the head of the queue. */
  lemma MapFirst(e: Entry, es: seq<Entry>)
    requires e.kind == Announcement
    ensures Ids([e] + es) == Ids(es) && Maps([e] + es) == Maps(es) + 1
  {
    IdsAppend([e], es);
  }

  /** A client's message at its end. */
  lemma PayloadLast(e: Entry, es: seq<Entry>)
    requires e.kind.Payload?
    ensures Ids(es + [e]) == Ids(es) + [e.kind.id] && Maps(es + [e]) == Maps(es)
  {
    IdsAppend(es, [e]);
    assert [e][1..] == [];
  }

  lemma SealedAppend(ws: seq<Wire>, w: Wire)
    ensures SealedIds(ws + [w]) == SealedIds(ws) + (match w case Control(_) => [] case Sealed(_, b) => Ids(b))
    ensures SealedMaps(ws + [w]) == SealedMaps(ws) + (match w case Control(_) => 0 case Sealed(_, b) => Maps(b))
  {
    assert (ws + [w])[..|ws|] == ws;
  }

  lemma TotalAppend(es: seq<Entry>, e: Entry)
    ensures Total(es + [e]) == Total(es) + e.size
  {
    assert (es + [e])[..|es|] == es;
  }

  lemma {:induction false} TotalMono(es: seq<Entry>, i: nat, j: nat)
    requires i <= j <= |es|
    requires forall k :: 0 <= k < |es| ==> es[k].size >= 1
    ensures Total(es[..i]) + (j - i) <= Total(es[..j])
    decreases j
  {
    if i < j {
      TotalMono(es, i, j - 1);
      assert es[..j][..j - 1] == es[..j - 1];
    }
  }

  /** Sealing a batch moves its client messages from the plaintext side to the encrypted side. */
  lemma LedgerSeal(ws: seq<Wire>, mark: nat, n: nat, batch: seq<Entry>, es: seq<Entry>)
    requires mark <= |ws|
    ensures var sealed := ws + [Sealed(n, batch)];
            && SealedIds(sealed[mark..]) + Ids(es) == SealedIds(ws[mark..]) + Ids(batch + es)
            && SealedMaps(sealed[mark..]) + Maps(es) == SealedMaps(ws[mark..]) + Maps(batch + es)
  {
    hide Ids, SealedIds, Maps, SealedMaps, Numbered, Seals;
    var w := Sealed(n, batch);
    assert (ws + [w])[mark..] == ws[mark..] + [w];
    SealedAppend(ws[mark..], w);
    IdsAppend(batch, es);
  }

  lemma LedgerControl(ws: seq<Wire>, mark: nat, m: Handshake)
    requires mark <= |ws|
    ensures SealedIds((ws + [Control(m)])[mark..]) == SealedIds(ws[mark..])
    ensures SealedMaps((ws + [Control(m)])[mark..]) == SealedMaps(ws[mark..])
  {
    assert (ws + [Control(m)])[mark..] == ws[mark..] + [Control(m)];
    SealedAppend(ws[mark..], Control(m));
  }

  lemma LedgerEmpty(ws: seq<Wire>)
    ensures SealedIds(ws[|ws|..]) + Ids([]) == [] && SealedMaps(ws[|ws|..]) + Maps([]) == 0
  {}

  /** Sequence numbers are 32 bits wide. */
  function NextSeq(n: nat): (r: nat)
    requires n < 0x1_0000_0000
    ensures r < 0x1_0000_0000
    ensures r == n + 1 || (r == 0 && n == 0xFFFF_FFFF)
  {
    (n + 1) % 0x1_0000_0000
  }

  /** How many batches were encrypted. */
  ghost function Seals(ws: seq<Wire>): nat {
    if ws == [] then 0 else Seals(ws[..|ws| - 1]) + if ws[|ws| - 1].Sealed? then 1 else 0
  }

  /** Batches carry consecutive numbers, 32 bits wide, from 1 on. */
  ghost predicate Numbered(ws: seq<Wire>) {
    ws != [] ==>
      && Numbered(ws[..|ws| - 1])
      && (ws[|ws| - 1].Sealed? ==> ws[|ws| - 1].seqno == Seals(ws) % 0x1_0000_0000)
  }

  lemma NumberedAppend(ws: seq<Wire>, w: Wire, n: nat)
    requires Numbered(ws) && n == Seals(ws) % 0x1_0000_0000 && (w.Sealed? ==> w.seqno == NextSeq(n))
    ensures Numbered(ws + [w]) && Seals(ws + [w]) % 0x1_0000_0000 == (if w.Sealed? then NextSeq(n) else n)
  {
    hide NextSeq;
    assert (ws + [w])[..|ws|] == ws;
    ModNext(Seals(ws));
  }

  lemma ModNext(k: nat)
    ensures (k + 1) % 0x1_0000_0000 == NextSeq(k % 0x1_0000_0000)
  {}

  lemma ModDiffer(a: nat, b: nat)
    requires a < b < a + 0x1_0000_0000
    ensures a % 0x1_0000_0000 != b % 0x1_0000_0000
  {}

  lemma {:induction false} NumberAt(ws: seq<Wire>, i: nat)
    requires Numbered(ws) && i < |ws| && ws[i].Sealed?
    ensures ws[i].seqno == Seals(ws[..i + 1]) % 0x1_0000_0000
    ensures 1 <= Seals(ws[..i + 1]) <= Seals(ws)
  {
    if i == |ws| - 1 {
      assert ws[..i + 1] == ws;
    } else {
      NumberAt(ws[..|ws| - 1], i);
      assert ws[..|ws| - 1][..i + 1] == ws[..i + 1];
    }
  }

  lemma {:induction false} SealsGrow(ws: seq<Wire>, i: nat, j: nat)
    requires i <= j <= |ws|
    ensures Seals(ws[..i]) <= Seals(ws[..j])
    decreases j
  {
    if i < j {
      SealsGrow(ws, i, j - 1);
      assert ws[..j][..j - 1] == ws[..j - 1];
    }
  }

  /** No number is used twice within 2^32 - 1 batches; numbers grow until they wrap. */
  lemma NumbersDiffer(ws: seq<Wire>, i: nat, j: nat)
    requires Numbered(ws) && i < j < |ws| && ws[i].Sealed? && ws[j].Sealed?
    ensures Seals(ws[..j + 1]) - Seals(ws[..i + 1]) < 0x1_0000_0000 ==> ws[i].seqno != ws[j].seqno
    ensures Seals(ws) < 0x1_0000_0000 ==> ws[i].seqno < ws[j].seqno
  {
    hide Numbered;
    NumberAt(ws, i);
    NumberAt(ws, j);
    SealsGrow(ws, i + 1, j);
    assert ws[..j + 1][..j] == ws[..j];
    var a, b := Seals(ws[..i + 1]), Seals(ws[..j + 1]);
    if b - a < 0x1_0000_0000 {
      ModDiffer(a, b);
    }
  }

  /** No message is of exactly the size on which an assertion fails. */
  ghost predicate Regular(es: seq<Entry>) {
    forall k :: 0 <= k < |es| ==> 1 <= es[k].size != MAX_ENCRYPTED
  }

  lemma RegularAppend(es: seq<Entry>, e: Entry)
    requires Regular(es) && 1 <= e.size != MAX_ENCRYPTED
    ensures Regular(es + [e])
  {}

  /** The first message is of that size. */
  predicate Fatal(es: seq<Entry>) {
    es != [] && es[0].size == MAX_ENCRYPTED
  }

  /** The first message is too large ever to be sent. */
  predicate Stuck(es: seq<Entry>) {
    es != [] && es[0].size > MAX_ENCRYPTED
  }

  /** What the surroundings of a neighbour are going to answer: does the transport service accept a request for the
      i-th message of its queue, and what does the clock show when it is read for the i-th time? */
  datatype World = World(accepts: nat -> bool, clock: nat -> nat)

  /** What became of a message that left the neighbour's queue. */
  datatype Fate = Refused | TimedOut | HandedOver

  /** As much of the queue as fits into one encrypted message. */
  ghost predicate IsBatch(es: seq<Entry>, b: seq<Entry>) {
    && b <= es && Total(b) <= MAX_ENCRYPTED
    && (b == es || Total(b) + es[|b|].size > MAX_ENCRYPTED)
  }

  /** There is something to send, and enough of it or a deadline has come. */
  ghost predicate Ripe(b: seq<Entry>, now: nat) {
    b != [] && (Total(b) >= MAX_ENCRYPTED / 2 || exists k :: 0 <= k < |b| && b[k].deadline <= now)
  }

  /** Every message of a queue gets its turn without a failing assertion or a standstill if and only if all are
      below the maximum size. */
  lemma SendableIff(es: seq<Entry>)
    requires forall k :: 0 <= k < |es| ==> es[k].size >= 1
    ensures (forall k :: 0 <= k < |es| ==> es[k].size < MAX_ENCRYPTED) <==>
              forall i :: 0 <= i <= |es| ==> !Fatal(es[i..]) && !Stuck(es[i..])
  {
    if k :| 0 <= k < |es| && es[k].size >= MAX_ENCRYPTED {
      assert es[k..][0] == es[k];
      assert Fatal(es[k..]) || Stuck(es[k..]);
    }
  }

  /** A client may be told to send exactly the message on which the assertion fails. */
  lemma GrantedFatal(x: Ref, h: Handle, p: Peer, deadline: nat, id: nat)
    ensures R.Affordable([x], map[x := Request(h, p, deadline, MAX_ENCRYPTED, false)], 0) == [x]
    ensures Fatal([Entry(Payload(id), MAX_ENCRYPTED, deadline)])
  {
    var heap := map[x := Request(h, p, deadline, MAX_ENCRYPTED, false)];
    R.AffordableStep([x], heap, 0);
    R.AffordableStep([x][1..], heap, MAX_ENCRYPTED);
  }

  /** A queue that is stuck stays so whatever is appended, and no batch of it has anything to send; a type map at
      its head goes alone. */
  lemma StuckStays(es: seq<Entry>, more: seq<Entry>, b: seq<Entry>, e: Entry)
    requires Stuck(es) && e.size >= 1
    ensures Stuck(es + more)
    ensures IsBatch(es + more, b) ==> b == []
    ensures e.size <= MAX_ENCRYPTED && IsBatch([e] + es, b) ==> b == [e]
  {
    if b != [] {
      TotalFrom(b, 0);
    }
    if |b| > 1 {
      TotalFrom(b, 1);
    }
    assert Total([]) == 0;
  }

  /** A total is no less than any of its parts. */
  lemma {:induction false} TotalFrom(b: seq<Entry>, k: nat)
    requires k < |b|
    ensures Total(b) >= b[k].size
  {
    if k < |b| - 1 {
      TotalFrom(b[..|b| - 1], k);
    }
  }

  /** What trying to transmit a queue does: its batch is sealed under the next number exactly if it is ripe. */
  ghost predicate Decided(es: seq<Entry>, now: nat, seqno: nat, ws: seq<Wire>, es': seq<Entry>, ws': seq<Wire>)
    requires seqno < 0x1_0000_0000
  {
    exists b :: IsBatch(es, b) &&
      if Ripe(b, now) then ws + [Sealed(NextSeq(seqno), b)] <= ws' else ws' == ws && es' == es
  }

  class Link {
    const peer: Peer
    const tables: R.Tables
    const world: World

    // the session, if there is one
    var up: bool
    var ready: bool          // the neighbour's queue was empty when last asked
    var sme: seq<Entry>      // messages ready for encryption
    var cork: bool           // a task to transmit corked messages is pending
    var announcing: bool     // the task for the first type map is still pending

    // the neighbour
    var queue: seq<Wire>     // messages for the transport service
    var pending: bool        // a request is pending with the transport service
    var departed: nat        // how many messages have left the queue
    var looks: nat           // how often the clock was read

    var seqSent: nat         // last sequence number transmitted

    ghost var emitted: seq<Wire>   // everything ever queued for the transport service
    ghost var fates: seq<Fate>     // what became of those that left the queue
    ghost var mark: nat            // how much of it precedes the current session
    ghost var accepted: seq<nat>   // client messages accepted in the current session
    ghost var announced: nat       // type maps handed to the current session

    /** The last number used is that of the last batch. */
    ghost predicate Numbers(ws: seq<Wire>)
      reads this`seqSent
    {
      Numbered(ws) && seqSent == Seals(ws) % 0x1_0000_0000
    }

    /** Client messages are encrypted exactly once and in the order of acceptance; no type map is lost. */
    ghost predicate Conserved(ws: seq<Wire>, es: seq<Entry>)
      reads this
    {
      && mark <= |ws|
      && SealedIds(ws[mark..]) + Ids(es) == accepted
      && SealedMaps(ws[mark..]) + Maps(es) == announced
      && Numbers(ws)
    }

    lemma NumbersControl(m: Handshake)
      requires Numbers(emitted)
      ensures Numbers(emitted + [Control(m)])
    {
      NumberedAppend(emitted, Control(m), seqSent);
    }

    /** Every message is, in order, either gone or queued; refused are exactly those that the transport service did
        not accept a request for. */
    ghost predicate Accounted()
      reads this`queue, this`pending, this`departed, this`emitted, this`fates
    {
      && departed == |fates| <= |emitted| && queue == emitted[departed..]
      && (forall i :: 0 <= i < departed ==> (fates[i] == Refused <==> !world.accepts(i)))
      && (pending ==> world.accepts(departed))
    }

    /** What was gone is gone, and since then only refused messages were. */
    ghost predicate OnlyRefused(before: seq<Fate>)
      reads this`fates
    {
      before <= fates && forall i :: |before| <= i < |fates| ==> fates[i] == Refused
    }

    /** More may have been queued, and nothing left the queue but refused messages. */
    ghost predicate Extends(ws: seq<Wire>, fs: seq<Fate>)
      reads this`emitted, this`fates
    {
      ws <= emitted && OnlyRefused(fs)
    }

    /** Since the clock was read for the i-th time, requests were dropped for cause only. */
    ghost predicate Spared(a: R.Reg, i: nat)
      reads this`looks, tables
    {
      i <= looks && R.Spared(a, tables.Snap(), world.clock, i, looks)
    }

    /** The session waits for more to send, and clients were solicited when the clock was read last. */
    ghost predicate Asking(a: R.Reg, i: nat)
      reads this`ready, this`looks, tables
    {
      ready && i < looks && R.Solicited(a, tables.Snap(), peer, world.clock(looks - 1))
    }

    /** What this object keeps of its own. */
    ghost predicate Own()
      reads this
    {
      Regular(sme) && (!up ==> sme == []) && Accounted()
    }

    /** The session is in the session table. */
    ghost predicate Wired()
      reads this, tables
    {
      tables.Valid() && peer != tables.me && (up <==> peer in tables.sessions)
    }

    ghost predicate Sound()
      reads this, tables
    {
      Wired() && Own()
    }

    /** No wake-up is lost. */
    ghost predicate Awake()
      reads this
    {
      && (pending <==> queue != [])
      && (up && ready && sme != [] && !Stuck(sme) ==> cork)
      && (up && !ready ==> queue != [] || announcing)
    }

    ghost predicate Local()
      reads this
    {
      Own() && Conserved(emitted, sme) && Awake()
    }

    ghost predicate Valid()
      reads this, tables
    {
      Wired() && Local()
    }

    constructor (peer: Peer, tables: R.Tables, world: World)
      requires tables.Valid() && peer != tables.me && peer !in tables.sessions
      ensures Valid() && this.peer == peer && this.tables == tables && this.world == world && !up && emitted == []
    {
      this.peer, this.tables, this.world := peer, tables, world;
      up, ready, sme, cork, announcing := false, false, [], false, false;
      queue, pending, departed, looks, seqSent := [], false, 0, 0, 0;
      emitted, fates, mark, accepted, announced := [], [], 0, [], 0;
    }

    /** How much of the session's queue fits into one message, and the earliest deadline in it; `ok` says that the
        assertion on the size of each message holds. */
    method MeasureReady() returns (ok: bool, msize: nat, minDeadline: Option<nat>, ghost k: nat)
      requires forall i :: 0 <= i < |sme| ==> sme[i].size >= 1
      ensures ok <==> !Fatal(sme)
      ensures ok ==> k <= |sme| && msize == Total(sme[..k]) <= MAX_ENCRYPTED
      ensures ok ==> k == |sme| || msize + sme[k].size > MAX_ENCRYPTED
      ensures ok ==> if sme == [] || Stuck(sme) then k == 0 && msize == 0 else k > 0 && msize > 0
      ensures minDeadline.Some? <==> k > 0
      ensures minDeadline.Some? ==>
                && k <= |sme|
                && (forall i :: 0 <= i < k ==> minDeadline.value <= sme[i].deadline)
                && (exists i :: 0 <= i < k && minDeadline.value == sme[i].deadline)
    {
      ok, msize, minDeadline, k := true, 0, None, 0;
      var pos := 0;
      while pos < |sme| && msize + sme[pos].size <= MAX_ENCRYPTED
        invariant k == pos <= |sme| && (k > 0 ==> !Fatal(sme) && !Stuck(sme))
        invariant msize == Total(sme[..k]) <= MAX_ENCRYPTED
        invariant k > 0 ==> msize > 0
        invariant minDeadline.Some? <==> k > 0
        invariant minDeadline.Some? ==> forall i :: 0 <= i < k ==> minDeadline.value <= sme[i].deadline
        invariant minDeadline.Some? ==> exists i :: 0 <= i < k && minDeadline.value == sme[i].deadline
      {
        if !(sme[pos].size < MAX_ENCRYPTED) {
          return false, msize, minDeadline, k;
        }
        assert sme[..k + 1] == sme[..k] + [sme[k]];
        TotalAppend(sme[..k], sme[k]);
        msize := msize + sme[pos].size;
        if minDeadline == None || sme[pos].deadline < minDeadline.value {
          minDeadline := Some(sme[pos].deadline);
        }
        pos, k := pos + 1, k + 1;
      }
    }

    /** Remove the messages that were measured. */
    method TakeBatch(msize: nat, ghost k: nat) returns (batch: seq<Entry>)
      requires Regular(sme) && k <= |sme| && msize == Total(sme[..k])
      modifies this`sme
      ensures batch == old(sme)[..k] && sme == old(sme)[k..]
    {
      var used := 0;
      batch := [];
      ghost var all := sme;
      while sme != [] && used + sme[0].size <= msize
        invariant |batch| <= k && batch == all[..|batch|] && sme == all[|batch|..]
        invariant used == Total(batch)
        decreases |sme|
      {
        var pos := sme[0];
        ghost var j := |batch|;
        assert all[..j + 1] == all[..j] + [all[j]];
        TotalAppend(batch, pos);
        TotalMono(all, k, if j + 1 > k then j + 1 else k);
        batch := batch + [pos];
        used := used + pos.size;
        sme := sme[1..];
      }
      TotalMono(all, |batch|, k);
      if |batch| < k {
        TotalMono(all, |batch| + 1, k);
        assert all[..|batch| + 1] == all[..|batch|] + [all[|batch|]];
        TotalAppend(batch, all[|batch|]);
      }
    }

    /** Queue a message for the transport service. */
    method Enqueue(w: Wire)
      requires Sound() && Conserved(emitted + [w], sme)
      requires pending ==> queue != []
      requires up && ready && sme != [] && !Stuck(sme) ==> cork
      modifies this`ready, this`sme, this`cork, this`queue, this`pending, this`departed, this`looks, this`seqSent,
               this`emitted, this`fates, tables`clients, tables`sessions, tables`heap
      ensures Valid() && R.Drained(old(tables.Snap()), tables.Snap(), peer)
      ensures up && queue == [] ==> Asking(old(tables.Snap()), old(looks))
      ensures OnlyRefused(old(fates)) && Spared(old(tables.Snap()), old(looks))
      ensures Said(emitted) == Said(old(emitted) + [w])
      ensures old(emitted) + [w] <= emitted
      decreases |sme|, |queue| + 1, 4
    {
      hide R.RegOk, R.Drained, R.Spared, R.Solicited;
      hide Ids, SealedIds, Maps, SealedMaps, Numbered, Seals, Said;
      queue := queue + [w];
      emitted := emitted + [w];
      ProcessQueue();
    }

    /** If no request is pending, ask the transport service to take the head of the queue. */
    method ProcessQueue()
      requires Sound() && Conserved(emitted, sme)
      requires pending ==> queue != []
      requires up && ready && sme != [] && !Stuck(sme) ==> cork
      modifies this`ready, this`sme, this`cork, this`queue, this`pending, this`departed, this`looks, this`seqSent,
               this`emitted, this`fates, tables`clients, tables`sessions, tables`heap
      ensures Valid() && R.Drained(old(tables.Snap()), tables.Snap(), peer)
      ensures up && queue == [] ==> Asking(old(tables.Snap()), old(looks))
      ensures OnlyRefused(old(fates)) && Spared(old(tables.Snap()), old(looks))
      ensures Said(emitted) == Said(old(emitted))
      ensures old(emitted) <= emitted
      decreases |sme|, |queue|, 3
    {
      hide R.RegOk, R.Drained, R.Spared, R.Solicited;
      hide Ids, SealedIds, Maps, SealedMaps, Numbered, Seals, Said, Regular, Decided, Accounted;
      Unmoved();
      if pending {
        return;
      }
      if queue == [] {
        Solicit();
        return;
      }
      RequestTransmission();
      if pending {
        return;
      }
      // the transport service refused the message; discard it
      RemoveHead(Refused);
      ProcessQueue();
    }

    /** Ask the transport service to take the message at the head of the queue. */
    method RequestTransmission()
      requires Accounted() && !pending
      modifies this`pending
      ensures Accounted() && pending == world.accepts(departed)
    {
      pending := world.accepts(departed);
    }

    /** The message at the head leaves the queue. */
    method RemoveHead(ghost fate: Fate)
      requires Accounted() && !pending && queue != [] && (fate == Refused <==> !world.accepts(departed))
      modifies this`queue, this`departed, this`fates
      ensures Accounted() && queue == old(queue)[1..] && fates == old(fates) + [fate]
    {
      queue, departed := queue[1..], departed + 1;
      fates := fates + [fate];
    }

    /** The neighbour's queue is empty: more may be transmitted. */
    method Solicit()
      requires Sound() && Conserved(emitted, sme)
      requires !pending && queue == []
      modifies this`ready, this`sme, this`cork, this`queue, this`pending, this`departed, this`looks, this`seqSent,
               this`emitted, this`fates, tables`clients, tables`sessions, tables`heap
      ensures Valid() && R.Drained(old(tables.Snap()), tables.Snap(), peer)
      ensures OnlyRefused(old(fates)) && Spared(old(tables.Snap()), old(looks))
      ensures Said(emitted) == Said(old(emitted))
      ensures old(emitted) <= emitted
      ensures up ==> Decided(old(sme), world.clock(old(looks)), old(seqSent), old(emitted), sme, emitted)
      ensures up && emitted == old(emitted) && sme != [] && !Stuck(sme) ==> ready && cork
      ensures up && (emitted == old(emitted) || queue == []) ==> Asking(old(tables.Snap()), old(looks))
      decreases |sme|, |queue|, 2
    {
      hide R.RegOk, R.Drained, R.Spared, R.Solicited;
      hide Ids, SealedIds, Maps, SealedMaps, Numbered, Seals, Said, Regular, Decided;
      Unmoved();
      if !up {
        return;
      }
      ready := true;
      TryTransmission();
    }

    /** Transmit a batch if enough is ready or its time has come; otherwise solicit more. */
    method TryTransmission()
      requires up && Sound() && Conserved(emitted, sme)
      requires pending <==> queue != []
      requires !ready ==> queue != [] || announcing
      modifies this`ready, this`sme, this`cork, this`queue, this`pending, this`departed, this`looks, this`seqSent,
               this`emitted, this`fates, tables`clients, tables`sessions, tables`heap
      ensures Valid() && R.Drained(old(tables.Snap()), tables.Snap(), peer)
      ensures OnlyRefused(old(fates)) && Spared(old(tables.Snap()), old(looks))
      ensures Said(emitted) == Said(old(emitted))
      ensures old(emitted) <= emitted
      ensures !old(ready) ==> emitted == old(emitted) && sme == old(sme)
      ensures old(ready) ==> Decided(old(sme), world.clock(old(looks)), old(seqSent), old(emitted), sme, emitted)
      ensures old(ready) && emitted == old(emitted) && sme != [] && !Stuck(sme) ==> ready && cork
      // while the batch waits, more is solicited
      ensures old(ready) && (emitted == old(emitted) || queue == []) ==> Asking(old(tables.Snap()), old(looks))
      decreases |sme|, |queue|, 1
    {
      hide R.RegOk, R.Drained, R.Spared, R.Solicited;
      hide Ids, SealedIds, Maps, SealedMaps, Numbered, Seals, Said, Total, IsBatch, Ripe, NextSeq, Accounted;
      Unmoved();
      if !ready {
        return;
      }
      ghost var a, i := tables.Snap(), looks;
      ghost var b;
      var now, msize;
      now, msize, b := DueNow();
      if !now {
        HoldBack(msize);
        R.SparedWider(a, tables.Snap(), world.clock, i + 1, looks, i);
        return;
      }
      SendBatch(msize, b);
      R.SparedWider(a, tables.Snap(), world.clock, i + 1, looks, i);
    }

    /** Seal what was measured. */
    method SendBatch(msize: nat, ghost b: seq<Entry>)
      requires up && Sound() && Conserved(emitted, sme) && (pending <==> queue != [])
      requires b != [] && b <= sme && msize == Total(b)
      modifies this`ready, this`sme, this`cork, this`queue, this`pending, this`departed, this`looks, this`seqSent,
               this`emitted, this`fates, tables`clients, tables`sessions, tables`heap
      ensures Valid() && R.Drained(old(tables.Snap()), tables.Snap(), peer)
      ensures up && queue == [] ==> Asking(old(tables.Snap()), old(looks))
      ensures OnlyRefused(old(fates)) && Spared(old(tables.Snap()), old(looks))
      ensures Said(emitted) == Said(old(emitted))
      ensures old(emitted) + [Sealed(NextSeq(old(seqSent)), b)] <= emitted
      decreases |sme|, |queue|, 0
    {
      hide R.RegOk, R.Drained, R.Spared, R.Solicited;
      hide Ids, SealedIds, Maps, SealedMaps, Numbered, Seals, Said, Total, NextSeq, Accounted;
      ghost var all := sme;
      assert sme[..|b|] == b;
      var batch := TakeBatch(msize, |b|);
      assert batch == b && all == batch + sme && Regular(sme);
      ready := false;
      EncryptAndTransmit(batch);
    }

    /** Not enough is ready yet: solicit more, and come back in time for what there is. */
    method HoldBack(msize: nat)
      requires up && ready && Sound() && Conserved(emitted, sme) && (pending <==> queue != [])
      requires msize == 0 <==> sme == [] || Stuck(sme)
      modifies this`cork, this`looks, tables`clients, tables`sessions, tables`heap
      ensures Valid() && R.Drained(old(tables.Snap()), tables.Snap(), peer) && (sme != [] && !Stuck(sme) ==> cork)
      ensures looks == old(looks) + 1 && Spared(old(tables.Snap()), old(looks))
      ensures R.Solicited(old(tables.Snap()), tables.Snap(), peer, world.clock(old(looks)))
    {
      hide R.RegOk, R.Drained, R.Spared, R.Solicited;
      hide Ids, SealedIds, Maps, SealedMaps, Numbered, Seals;
      ghost var a, i := tables.Snap(), looks;
      var now := ReadClock();
      tables.SolicitMessages(peer, now);
      R.SolicitedSpared(a, tables.Snap(), peer, world.clock, i);
      if msize > 0 {
        cork := true;
      }
    }

    method ReadClock() returns (now: nat)
      modifies this`looks
      ensures now == world.clock(old(looks)) && looks == old(looks) + 1
    {
      now := world.clock(looks);
      looks := looks + 1;
    }

    /** Is it time to transmit, because enough is ready or a deadline has passed? */
    method DueNow() returns (go: bool, msize: nat, ghost b: seq<Entry>)
      requires Regular(sme)
      modifies this`looks
      ensures looks == old(looks) + 1
      ensures IsBatch(sme, b) && msize == Total(b) && b == sme[..|b|] && (msize == 0 <==> sme == [] || Stuck(sme))
      ensures go <==> Ripe(b, world.clock(old(looks)))
      ensures go ==> b != []
    {
      ghost var k;
      var ok, minDeadline;
      ok, msize, minDeadline, k := MeasureReady();
      assert ok;
      b := sme[..k];
      var now := ReadClock();
      assert forall k :: 0 <= k < |b| ==> b[k] == sme[k];
      go := !(msize == 0 || (msize < MAX_ENCRYPTED / 2 && (minDeadline == None || minDeadline.value > now)));
    }

    /** Encrypt a batch under the next sequence number and queue it for transport. */
    method EncryptAndTransmit(batch: seq<Entry>)
      requires Sound()
      requires Conserved(emitted, batch + sme)
      requires pending ==> queue != []
      requires up && ready && sme != [] && !Stuck(sme) ==> cork
      modifies this`ready, this`sme, this`cork, this`queue, this`pending, this`departed, this`looks, this`seqSent,
               this`emitted, this`fates, tables`clients, tables`sessions, tables`heap
      ensures Valid() && R.Drained(old(tables.Snap()), tables.Snap(), peer)
      ensures up && queue == [] ==> Asking(old(tables.Snap()), old(looks))
      ensures OnlyRefused(old(fates)) && Spared(old(tables.Snap()), old(looks))
      ensures Said(emitted) == Said(old(emitted))
      ensures old(emitted) + [Sealed(NextSeq(old(seqSent)), batch)] <= emitted
      decreases |sme|, |queue| + 1, 5
    {
      hide R.RegOk, R.Drained, R.Spared, R.Solicited;
      hide NextSeq, Ids, SealedIds, Maps, SealedMaps;
      NumberedAppend(emitted, Sealed(NextSeq(seqSent), batch), seqSent);
      seqSent := NextSeq(seqSent);
      LedgerSeal(emitted, mark, seqSent, batch, sme);
      SaidAppend(emitted, Sealed(seqSent, batch));
      Enqueue(Sealed(seqSent, batch));
    }

    lemma Unmoved()
      ensures R.Drained(tables.Snap(), tables.Snap(), peer) && Spared(tables.Snap(), looks)
    {}

    lemma SeqWidth()
      requires Valid()
      ensures seqSent < 0x1_0000_0000
    {}

    // ---- events

    /** A message of the key exchange. */
    method SendControl(m: Handshake)
      requires Valid()
      modifies this`ready, this`sme, this`cork, this`queue, this`pending, this`departed, this`looks, this`seqSent,
               this`emitted, this`fates, tables`clients, tables`sessions, tables`heap
      ensures Valid() && R.Drained(old(tables.Snap()), tables.Snap(), peer)
      ensures up && queue == [] ==> Asking(old(tables.Snap()), old(looks))
      ensures OnlyRefused(old(fates)) && Spared(old(tables.Snap()), old(looks))
      ensures old(emitted) + [Control(m)] <= emitted
      ensures Said(emitted) == Said(old(emitted)) + [m]
    {
      hide R.RegOk, R.Drained, R.Spared, R.Solicited;
      hide Ids, SealedIds, Maps, SealedMaps, Numbered, Seals, Said;
      LedgerControl(emitted, mark, m);
      NumbersControl(m);
      SaidAppend(emitted, Control(m));
      Enqueue(Control(m));
    }

    /** The transport service takes the message at the head of the queue, or its request timed out. */
    method TransmitReady(taken: bool) returns (w: Wire)
      requires Valid() && pending
      modifies this`ready, this`sme, this`cork, this`queue, this`pending, this`departed, this`looks, this`seqSent,
               this`emitted, this`fates, tables`clients, tables`sessions, tables`heap
      ensures Valid() && R.Drained(old(tables.Snap()), tables.Snap(), peer)
      ensures up && queue == [] ==> Asking(old(tables.Snap()), old(looks))
      ensures OnlyRefused(old(fates) + [if taken then HandedOver else TimedOut])
      ensures Spared(old(tables.Snap()), old(looks))
      ensures Said(emitted) == Said(old(emitted)) && old(emitted) <= emitted
      ensures old(queue) != [] && w == old(queue)[0] == emitted[|old(fates)|]
    {
      hide R.RegOk, R.Drained, R.Spared, R.Solicited;
      hide Ids, SealedIds, Maps, SealedMaps, Numbered, Seals, Said;
      assert queue != [];
      pending := false;
      w := queue[0];
      RemoveHead(if taken then HandedOver else TimedOut);
      ProcessQueue();
    }

    /** The delay for corked messages has passed. */
    method PopCork()
      requires Valid() && up && cork
      modifies this`ready, this`sme, this`cork, this`queue, this`pending, this`departed, this`looks, this`seqSent,
               this`emitted, this`fates, tables`clients, tables`sessions, tables`heap
      ensures Valid() && R.Drained(old(tables.Snap()), tables.Snap(), peer)
      ensures OnlyRefused(old(fates)) && Spared(old(tables.Snap()), old(looks))
      ensures Said(emitted) == Said(old(emitted)) && old(emitted) <= emitted
      ensures old(ready) ==> Decided(old(sme), world.clock(old(looks)), old(seqSent), old(emitted), sme, emitted)
      ensures old(ready) && (emitted == old(emitted) || queue == []) ==> Asking(old(tables.Snap()), old(looks))
      ensures !old(ready) ==> sme == old(sme) && emitted == old(emitted)
    {
      hide R.RegOk, R.Drained, R.Spared, R.Solicited;
      cork := false;
      TryTransmission();
    }

    /** Time to send our type map (again). */
    method TransmitTypemap(size: nat)
      requires Valid() && up
      modifies this`ready, this`sme, this`cork, this`queue, this`pending, this`departed, this`looks, this`seqSent,
               this`emitted, this`fates, this`announcing, this`announced,
               tables`clients, tables`sessions, tables`heap
      ensures Valid() && R.Drained(old(tables.Snap()), tables.Snap(), peer) && !announcing
      ensures up && queue == [] ==> Asking(old(tables.Snap()), old(looks))
      ensures OnlyRefused(old(fates)) && Spared(old(tables.Snap()), old(looks))
      ensures old(emitted) + [Sealed(NextSeq(old(seqSent)), [Entry(Announcement, size, 0)])] <= emitted
      ensures announced == old(announced) + 1
      ensures Said(emitted) == Said(old(emitted))
    {
      hide R.RegOk, R.Drained, R.Spared, R.Solicited;
      announcing := false;
      hide Ids, SealedIds, Maps, SealedMaps, Numbered, Seals, Said;
      var e := Entry(Announcement, size, 0);
      MapFirst(e, sme);
      announced := announced + 1;
      EncryptAndTransmit([e]);
    }

    /** Our type map changed: it goes to the head of the session's queue. */
    method PushTypemap(size: nat)
      requires Valid() && up && 1 <= size < MAX_ENCRYPTED
      modifies this`ready, this`sme, this`cork, this`queue, this`pending, this`departed, this`looks, this`seqSent,
               this`emitted, this`fates, this`announced,
               tables`clients, tables`sessions, tables`heap
      ensures Valid() && R.Drained(old(tables.Snap()), tables.Snap(), peer)
      ensures OnlyRefused(old(fates)) && Spared(old(tables.Snap()), old(looks))
      ensures announced == old(announced) + 1
      ensures Said(emitted) == Said(old(emitted))
      ensures var es := [Entry(Announcement, size, 0)] + old(sme);
              if old(ready) then Decided(es, world.clock(old(looks)), old(seqSent), old(emitted), sme, emitted)
              else sme == es && emitted == old(emitted)
      ensures old(ready) && (emitted == old(emitted) || queue == []) ==> Asking(old(tables.Snap()), old(looks))
    {
      hide R.RegOk, R.Drained, R.Spared, R.Solicited;
      hide Ids, SealedIds, Maps, SealedMaps, Numbered, Seals, Said;
      var e := Entry(Announcement, size, 0);
      MapFirst(e, sme);
      announced := announced + 1;
      sme := [e] + sme;
      TryTransmission();
    }

    /** A client's message for the peer. */
    method Transmit(id: nat, size: nat, deadline: nat)
      requires Valid() && 1 <= size != MAX_ENCRYPTED
      modifies this`ready, this`sme, this`cork, this`queue, this`pending, this`departed, this`looks, this`seqSent,
               this`emitted, this`fates, this`accepted,
               tables`clients, tables`sessions, tables`heap
      ensures Valid() && R.Drained(old(tables.Snap()), tables.Snap(), peer)
      ensures OnlyRefused(old(fates)) && Spared(old(tables.Snap()), old(looks))
      ensures Said(emitted) == Said(old(emitted))
      ensures accepted == if up then old(accepted) + [id] else old(accepted)
      ensures up ==>
                var es := old(sme) + [Entry(Payload(id), size, deadline)];
                if old(ready) then Decided(es, world.clock(old(looks)), old(seqSent), old(emitted), sme, emitted)
                else sme == es && emitted == old(emitted)
      ensures up && old(ready) && (emitted == old(emitted) || queue == []) ==> Asking(old(tables.Snap()), old(looks))
    {
      hide R.RegOk, R.Drained, R.Spared, R.Solicited;
      hide Ids, SealedIds, Maps, SealedMaps, Numbered, Seals, Said, Regular, Decided;
      Unmoved();
      if !up {
        return;
      }
      hide Accounted;
      var e := Entry(Payload(id), size, deadline);
      RegularAppend(sme, e);
      PayloadLast(e, sme);
      assert SealedIds(emitted[mark..]) + (Ids(sme) + [id]) == SealedIds(emitted[mark..]) + Ids(sme) + [id];
      accepted := accepted + [id];
      sme := sme + [e];
      TryTransmission();
    }

    /** Nothing is queued for the session, and no task is pending but the one for the first type map. */
    method Reset(live: bool)
      modifies this`up, this`ready, this`sme, this`cork, this`announcing, this`mark, this`accepted, this`announced
      ensures up == announcing == live && !ready && sme == [] && !cork
      ensures mark == |emitted| && accepted == [] && announced == 0
    {
      up, ready, sme, cork, announcing := live, false, [], false, live;
      mark, accepted, announced := |emitted|, [], 0;
    }

    lemma Cleared()
      requires Accounted() && Numbers(emitted)
      requires sme == [] && mark == |emitted| && accepted == [] && announced == 0
      ensures Own() && Conserved(emitted, sme)
    {
      hide Ids, SealedIds, Maps, SealedMaps, Numbered, Seals;
      LedgerEmpty(emitted);
    }

    /** A transmission part for the session that was just created in the tables. */
    method Start()
      requires tables.Valid() && peer != tables.me && peer in tables.sessions && !up
      requires Accounted() && (pending <==> queue != [])
      requires Numbers(emitted)
      modifies this`up, this`ready, this`sme, this`cork, this`announcing, this`mark, this`accepted, this`announced
      ensures Valid() && up && announcing && accepted == []
    {
      hide R.Tables.Valid, Accounted, Numbers, Own, Conserved;
      Reset(true);
      Cleared();
    }

    /** The session ended: its messages are dropped and its tasks cancelled. */
    method Stop()
      requires tables.Valid() && peer != tables.me && peer !in tables.sessions
      requires Accounted() && (pending <==> queue != [])
      requires Numbers(emitted)
      modifies this`up, this`ready, this`sme, this`cork, this`announcing, this`mark, this`accepted, this`announced
      ensures Valid() && !up
    {
      hide R.Tables.Valid, Accounted, Numbers, Own, Conserved;
      Reset(false);
      Cleared();
    }

    /** Whatever waits in a session is going to be looked at: a task or a transport request is pending. */
    lemma NothingWaitsForever()
      requires Valid() && up && sme != [] && !Stuck(sme)
      ensures cork || pending || announcing
    {}
  }
}
