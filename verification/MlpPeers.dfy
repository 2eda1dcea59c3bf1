/**
 The peer lists of the linear program beside the address map of the service.  An
 address is in the map from its addition on, but enters the linear program only
 when it is updated, used or loses its session; deletion and every rebuild rely
 on it having entered.  This file says exactly when they can.
 */
module MlpPeers {
  import opened CoreTypes
  import opened Mlp
  import MlpShape
  import B = MlpBuilder

  lemma {:induction false} FlatAppend(a: seq<PeerRec>, b: seq<PeerRec>)
    ensures Flat(a + b) == Flat(a) + Flat(b)
  {
    if b == [] {
      assert a + b == a;
    } else {
      var m := |b| - 1;
      assert (a + b)[..|a| + m] == a + b[..m];
      FlatAppend(a, b[..m]);
    }
  }

  lemma FlatOne(r: PeerRec)
    ensures Flat([r]) == r.addrs
  {
    assert [r][..0] == [];
    assert Flat([]) + r.addrs == r.addrs;
  }

  /** The lists of the other peers. */
  lemma FlatAround(peers: seq<PeerRec>, p: nat, r: PeerRec)
    requires p < |peers|
    ensures multiset(Flat(peers[p := r])) == multiset(Flat(peers[..p] + peers[p + 1..])) + multiset(r.addrs)
    ensures multiset(Flat(peers)) == multiset(Flat(peers[..p] + peers[p + 1..])) + multiset(peers[p].addrs)
  {
    hide Flat;
    var a, b := peers[..p], peers[p + 1..];
    assert peers[p := r] == a + [r] + b;
    assert peers == a + [peers[p]] + b;
    FlatAppend(a, b);
    FlatAppend(a + [r], b);
    FlatAppend(a, [r]);
    FlatOne(r);
    FlatAppend(a + [peers[p]], b);
    FlatAppend(a, [peers[p]]);
    FlatOne(peers[p]);
  }

  /** The list without one element. */
  function Unlinked(s: seq<Addr>, a: Addr): (r: seq<Addr>)
    requires a in s
    ensures multiset(r) == multiset(s) - multiset{a}
  {
    if s[0] == a then
      assert s == [a] + s[1..];
      s[1..]
    else
      assert s == [s[0]] + s[1..];
      [s[0]] + Unlinked(s[1..], a)
  }

  /** Each record is for another peer, and lists addresses of that peer, at least one. */
  ghost predicate RecordsOk(peers: seq<PeerRec>, owner: map<Addr, Peer>, metrics: nat) {
    && (forall p, q :: 0 <= p < q < |peers| ==> peers[p].id != peers[q].id)
    && (forall p :: 0 <= p < |peers| ==> RecordOk(peers[p], owner, metrics))
  }

  ghost predicate RecordOk(r: PeerRec, owner: map<Addr, Peer>, metrics: nat) {
    r.addrs != [] && |r.fq| == metrics && forall a :: a in r.addrs ==> a in owner && owner[a] == r.id
  }

  /** Every known address is in exactly one list, once. */
  ghost predicate TableOk(peers: seq<PeerRec>, owner: map<Addr, Peer>, metrics: nat) {
    RecordsOk(peers, owner, metrics) && multiset(Flat(peers)) == multiset(owner.Keys)
  }

  lemma KeysWith(owner: map<Addr, Peer>, a: Addr, id: Peer)
    requires a !in owner
    ensures multiset(owner[a := id].Keys) == multiset(owner.Keys) + multiset{a}
  {
    assert owner[a := id].Keys == owner.Keys + {a};
  }

  lemma KeysWithout(owner: map<Addr, Peer>, a: Addr)
    requires a in owner
    ensures multiset((owner - {a}).Keys) == multiset(owner.Keys) - multiset{a}
  {
    assert (owner - {a}).Keys == owner.Keys - {a};
  }

  lemma NewPeer(peers: seq<PeerRec>, owner: map<Addr, Peer>, metrics: nat, a: Addr, r: PeerRec)
    requires TableOk(peers, owner, metrics) && a !in owner
    requires r.addrs == [a] && |r.fq| == metrics && forall q :: 0 <= q < |peers| ==> peers[q].id != r.id
    ensures TableOk([r] + peers, owner[a := r.id], metrics)
  {
    hide Flat;
    FlatAppend([r], peers);
    FlatOne(r);
    KeysWith(owner, a, r.id);
    var peers', owner' := [r] + peers, owner[a := r.id];
    forall p | 0 <= p < |peers'| ensures RecordOk(peers'[p], owner', metrics) {
      if p > 0 { assert RecordOk(peers[p - 1], owner, metrics); }
    }
  }

  lemma NewAddress(peers: seq<PeerRec>, owner: map<Addr, Peer>, metrics: nat, a: Addr, p: nat)
    requires TableOk(peers, owner, metrics) && a !in owner && p < |peers|
    ensures TableOk(peers[p := peers[p].(addrs := [a] + peers[p].addrs)], owner[a := peers[p].id], metrics)
  {
    hide Flat;
    var r := peers[p].(addrs := [a] + peers[p].addrs);
    FlatAround(peers, p, r);
    KeysWith(owner, a, r.id);
    var owner', peers' := owner[a := r.id], peers[p := r];
    forall q | 0 <= q < |peers'| ensures RecordOk(peers'[q], owner', metrics) {
      assert RecordOk(peers[q], owner, metrics);
    }
  }

  /** The record of an address lists it, and no other record does. */
  lemma ListedThere(peers: seq<PeerRec>, owner: map<Addr, Peer>, metrics: nat, a: Addr)
    requires TableOk(peers, owner, metrics) && a in owner
    ensures exists p :: 0 <= p < |peers| && peers[p].id == owner[a]
    ensures forall p :: 0 <= p < |peers| ==> (peers[p].id == owner[a] <==> a in peers[p].addrs)
  {
    assert a in multiset(Flat(peers));
    InSomeList(peers, a);
    var p :| 0 <= p < |peers| && a in peers[p].addrs;
    assert RecordOk(peers[p], owner, metrics);
    forall q | 0 <= q < |peers| ensures peers[q].id == owner[a] <==> a in peers[q].addrs {
      assert RecordOk(peers[q], owner, metrics);
    }
  }

  lemma {:induction false} InSomeList(peers: seq<PeerRec>, a: Addr)
    requires a in Flat(peers)
    ensures exists p :: 0 <= p < |peers| && a in peers[p].addrs
  {
    var m := |peers| - 1;
    if a !in peers[m].addrs {
      InSomeList(peers[..m], a);
      var p :| 0 <= p < m && a in peers[..m][p].addrs;
      assert a in peers[p].addrs;
    }
  }

  lemma GoneAddress(peers: seq<PeerRec>, owner: map<Addr, Peer>, metrics: nat, a: Addr, p: nat)
    requires TableOk(peers, owner, metrics) && a in owner && p < |peers| && a in peers[p].addrs
    requires Unlinked(peers[p].addrs, a) != []
    ensures TableOk(peers[p := peers[p].(addrs := Unlinked(peers[p].addrs, a))], owner - {a}, metrics)
  {
    hide Flat, Unlinked, RecordOk;
    var r := peers[p].(addrs := Unlinked(peers[p].addrs, a));
    FlatAround(peers, p, r);
    KeysWithout(owner, a);
    var peers' := peers[p := r];
    forall q | 0 <= q < |peers'| ensures RecordOk(peers'[q], owner - {a}, metrics) {
      GoneRecord(peers, owner, metrics, a, p, q);
    }
  }

  lemma GonePeer(peers: seq<PeerRec>, owner: map<Addr, Peer>, metrics: nat, a: Addr, p: nat)
    requires TableOk(peers, owner, metrics) && a in owner && p < |peers| && a in peers[p].addrs
    requires Unlinked(peers[p].addrs, a) == []
    ensures TableOk(peers[..p] + peers[p + 1..], owner - {a}, metrics)
  {
    hide Flat, Unlinked, RecordOk;
    FlatAround(peers, p, peers[p]);
    KeysWithout(owner, a);
    OnlyAddress(peers[p].addrs, a);
    var peers' := peers[..p] + peers[p + 1..];
    forall q | 0 <= q < |peers'| ensures RecordOk(peers'[q], owner - {a}, metrics) {
      GoneRecord(peers, owner, metrics, a, p, if q >= p then q + 1 else q);
    }
  }

  lemma OnlyAddress(s: seq<Addr>, a: Addr)
    requires a in s && Unlinked(s, a) == []
    ensures multiset(s) == multiset{a}
  {
    assert a in multiset(s);
    assert multiset(s) - multiset{a} == multiset([]);
  }

  lemma GoneRecord(peers: seq<PeerRec>, owner: map<Addr, Peer>, metrics: nat, a: Addr, p: nat, q: nat)
    requires TableOk(peers, owner, metrics) && a in owner && p < |peers| && a in peers[p].addrs && q < |peers|
    ensures q != p ==> RecordOk(peers[q], owner - {a}, metrics)
    ensures q == p && Unlinked(peers[p].addrs, a) != [] ==>
              RecordOk(peers[p].(addrs := Unlinked(peers[p].addrs, a)), owner - {a}, metrics)
  {
    hide Flat;
    assert RecordOk(peers[q], owner, metrics) && RecordOk(peers[p], owner, metrics);
    if q != p {
      assert a !in peers[q].addrs;
    } else {
      var s := peers[p].addrs;
      OnceListed(peers, owner, metrics, a, p);
      forall b | b in Unlinked(s, a) ensures b in s && b != a {
        assert b in multiset(Unlinked(s, a));
        assert b in multiset(s);
      }
    }
  }

  lemma OnceListed(peers: seq<PeerRec>, owner: map<Addr, Peer>, metrics: nat, a: Addr, p: nat)
    requires TableOk(peers, owner, metrics) && p < |peers|
    ensures multiset(peers[p].addrs)[a] <= 1
  {
    hide Flat;
    FlatAround(peers, p, peers[p]);
    assert multiset(owner.Keys)[a] <= 1;
  }

  /** However the address map is iterated, the linear program can be built. */
  lemma Buildable(i: Input, owner: map<Addr, Peer>)
    requires TableOk(i.peers, owner, i.mq) && owner != map[]
    requires NoDup(i.order) && forall a :: a in i.order <==> a in owner
    requires |i.quotaIndex| == NETWORKS == |i.quotaOut|
    requires forall a :: a in owner ==> a in i.info && |i.info[a].avg| >= i.mq
    ensures WellFormed(i)
  {
    hide Flat;
    OrderKeys(i.order, owner.Keys);
    var a :| a in owner;
    ListedThere(i.peers, owner, i.mq, a);
    forall p | 0 <= p < |i.peers| ensures |i.peers[p].fq| >= i.mq {
      assert RecordOk(i.peers[p], owner, i.mq);
    }
  }

  lemma {:induction false} OrderKeys(order: seq<Addr>, keys: set<Addr>)
    requires NoDup(order) && forall a :: a in order <==> a in keys
    ensures multiset(order) == multiset(keys)
  {
    if order == [] {
      assert keys == {};
    } else {
      var m := |order| - 1;
      assert order == order[..m] + [order[m]];
      OrderKeys(order[..m], keys - {order[m]});
      assert keys == (keys - {order[m]}) + {order[m]};
    }
  }

  // ---------------------------------------------------------------------
  // The address map and the linear program, over runs
  // ---------------------------------------------------------------------

  /** The address map with the peer of each address, the addresses that have entered the linear program, and the
      peer lists. */
  datatype Lp = Lp(book: map<Addr, Peer>, info: set<Addr>, peers: seq<PeerRec>)

  const Empty := Lp(map[], {}, [])

  /** An address is added to the map; it is updated, used or loses its session; it is destroyed. */
  datatype Event = Add(a: Addr, id: Peer) | Enter(a: Addr) | Destroy(a: Addr)

  ghost predicate Enabled(s: Lp, e: Event) {
    match e
    case Add(a, _) => a !in s.book
    case Enter(a) => a in s.book
    case Destroy(a) => a in s.book
  }

  function RecordOf(peers: seq<PeerRec>, id: Peer): (r: Option<nat>)
    ensures r.Some? ==> r.value < |peers| && peers[r.value].id == id
    ensures r.Some? ==> forall q :: 0 <= q < r.value ==> peers[q].id != id
    ensures r.None? ==> forall q :: 0 <= q < |peers| ==> peers[q].id != id
  {
    if peers == [] then None
    else if peers[0].id == id then Some(0)
    else match RecordOf(peers[1..], id)
      case None => None
      case Some(p) => Some(p + 1)
  }

  function Ones(n: nat): (r: seq<real>)
    ensures |r| == n && forall k :: 0 <= k < n ==> r[k] == 1.0
  {
    if n == 0 then [] else Ones(n - 1) + [1.0]
  }

  /** The lists with a new address, possibly of a new peer with default preferences. */
  function Entered(peers: seq<PeerRec>, a: Addr, id: Peer, metrics: nat): seq<PeerRec> {
    match RecordOf(peers, id)
    case None => [PeerRec(id, [a], 1.0, Ones(metrics))] + peers
    case Some(p) => peers[p := peers[p].(addrs := [a] + peers[p].addrs)]
  }

  /** The lists without an address; a peer without addresses is forgotten. */
  function Deleted(peers: seq<PeerRec>, a: Addr, p: nat): seq<PeerRec>
    requires p < |peers| && a in peers[p].addrs
  {
    var rest := Unlinked(peers[p].addrs, a);
    if rest == [] then peers[..p] + peers[p + 1..] else peers[p := peers[p].(addrs := rest)]
  }

  /** The deleted address is found where it is looked for. */
  predicate Found(s: Lp, a: Addr)
    requires a in s.book
  {
    RecordOf(s.peers, s.book[a]).Some? && a in s.peers[RecordOf(s.peers, s.book[a]).value].addrs
  }

  /** The state after an event; if the deleted address is not found the code does not get there. */
  function Step(s: Lp, e: Event, metrics: nat): Lp
    requires e.Add? || e.a in s.book
  {
    match e
    case Add(a, id) => s.(book := s.book[a := id])
    case Enter(a) =>
      if a in s.info then s else s.(info := s.info + {a}, peers := Entered(s.peers, a, s.book[a], metrics))
    case Destroy(a) =>
      Lp(s.book - {a}, s.info - {a},
         if Found(s, a) then Deleted(s.peers, a, RecordOf(s.peers, s.book[a]).value) else s.peers)
  }

  /** The problem is rebuilt over the whole address map. */
  predicate Rebuilds(s: Lp, e: Event, metrics: nat)
    requires e.Add? || e.a in s.book
  {
    match e
    case Add(_, _) => false
    case Enter(a) => a !in s.info
    case Destroy(a) => var t := Step(s, e, metrics); t.book != map[] && t.peers != []
  }

  /** The assertions on the way hold: the deleted address is in the list of its peer, and on a rebuild every
      address of the map has entered. */
  ghost predicate Safe(s: Lp, e: Event, metrics: nat)
    requires e.Add? || e.a in s.book
  {
    && (e.Destroy? ==> Found(s, e.a))
    && (Rebuilds(s, e, metrics) ==> forall b :: b in Step(s, e, metrics).book ==> b in Step(s, e, metrics).info)
  }

  /** What the callers would have to keep to, said of which addresses were added and entered. */
  ghost predicate Careful(s: Lp, e: Event)
    requires e.Add? || e.a in s.book
  {
    match e
    case Add(_, _) => true
    case Enter(a) => a in s.info || forall b :: b in s.book && b != a ==> b in s.info
    case Destroy(a) => a in s.info && (s.info == {a} || forall b :: b in s.book ==> b in s.info)
  }

  ghost function Owner(s: Lp): map<Addr, Peer> {
    map a | a in s.info && a in s.book :: s.book[a]
  }

  /** The lists partition the addresses that have entered. */
  ghost predicate Inv(s: Lp, metrics: nat) {
    s.info <= s.book.Keys && TableOk(s.peers, Owner(s), metrics)
  }

  lemma EnteredOk(s: Lp, a: Addr, metrics: nat)
    requires Inv(s, metrics) && a in s.book && a !in s.info
    ensures Inv(Step(s, Enter(a), metrics), metrics)
  {
    hide TableOk;
    var t := Step(s, Enter(a), metrics);
    assert Owner(t) == Owner(s)[a := s.book[a]];
    match RecordOf(s.peers, s.book[a]) {
      case None => NewPeer(s.peers, Owner(s), metrics, a, PeerRec(s.book[a], [a], 1.0, Ones(metrics)));
      case Some(p) => NewAddress(s.peers, Owner(s), metrics, a, p);
    }
  }

  lemma DeletedOk(s: Lp, a: Addr, metrics: nat)
    requires Inv(s, metrics) && a in s.book && a in s.info && Found(s, a)
    ensures Inv(Step(s, Destroy(a), metrics), metrics)
  {
    hide TableOk;
    var t := Step(s, Destroy(a), metrics);
    assert Owner(t) == Owner(s) - {a};
    var p := RecordOf(s.peers, s.book[a]).value;
    if Unlinked(s.peers[p].addrs, a) == [] {
      GonePeer(s.peers, Owner(s), metrics, a, p);
    } else {
      GoneAddress(s.peers, Owner(s), metrics, a, p);
    }
  }

  /** An address is found in the lists exactly if it has entered. */
  lemma FoundIff(s: Lp, a: Addr, metrics: nat)
    requires Inv(s, metrics) && a in s.book
    ensures Found(s, a) <==> a in s.info
  {
    hide Flat;
    if a in s.info {
      ListedThere(s.peers, Owner(s), metrics, a);
    }
    if Found(s, a) {
      assert RecordOk(s.peers[RecordOf(s.peers, s.book[a]).value], Owner(s), metrics);
    }
  }

  /** There are peers exactly if some address has entered. */
  lemma PeersIff(s: Lp, metrics: nat)
    requires Inv(s, metrics)
    ensures s.peers != [] <==> s.info != {}
  {
    hide Flat;
    if a :| a in s.info {
      ListedThere(s.peers, Owner(s), metrics, a);
    }
    if s.peers != [] {
      assert RecordOk(s.peers[0], Owner(s), metrics);
      assert s.peers[0].addrs[0] in s.peers[0].addrs;
    }
  }

  lemma StepKeeps(s: Lp, e: Event, metrics: nat)
    requires Inv(s, metrics) && Enabled(s, e) && Safe(s, e, metrics)
    ensures Inv(Step(s, e, metrics), metrics)
  {
    hide TableOk;
    match e {
      case Add(a, id) => assert Owner(Step(s, e, metrics)) == Owner(s);
      case Enter(a) => if a !in s.info { EnteredOk(s, a, metrics); }
      case Destroy(a) =>
        FoundIff(s, a, metrics);
        DeletedOk(s, a, metrics);
    }
  }

  /** No assertion fails in a step if and only if the caller is careful. */
  lemma SafeIff(s: Lp, e: Event, metrics: nat)
    requires Inv(s, metrics) && Enabled(s, e)
    ensures Safe(s, e, metrics) <==> Careful(s, e)
  {
    hide TableOk, Step;
    match e {
      case Add(_, _) =>
      case Enter(a) => if a !in s.info { EnterBooks(s, a, metrics); }
      case Destroy(a) => DestroySafeIff(s, a, metrics);
    }
  }

  lemma EnterBooks(s: Lp, a: Addr, metrics: nat)
    requires a in s.book && a !in s.info
    ensures var t := Step(s, Enter(a), metrics); t.book == s.book && t.info == s.info + {a}
  {}

  lemma DestroySafeIff(s: Lp, a: Addr, metrics: nat)
    requires Inv(s, metrics) && a in s.book
    ensures Safe(s, Destroy(a), metrics) <==> Careful(s, Destroy(a))
  {
    hide TableOk;
    FoundIff(s, a, metrics);
    if Found(s, a) {
      var t := Step(s, Destroy(a), metrics);
      DeletedOk(s, a, metrics);
      PeersIff(t, metrics);
      assert t.info == {} <==> s.info == {a};
      if s.info != {a} && Safe(s, Destroy(a), metrics) {
        forall b | b in s.book ensures b in s.info {
          if b != a { assert b in t.book; }
        }
      }
    }
  }

  ghost predicate Possible(s: Lp, es: seq<Event>, metrics: nat)
    decreases |es|
  {
    es == [] || (Enabled(s, es[0]) && Possible(Step(s, es[0], metrics), es[1..], metrics))
  }

  ghost predicate NoFailure(s: Lp, es: seq<Event>, metrics: nat)
    requires Possible(s, es, metrics)
    decreases |es|
  {
    es == [] || (Safe(s, es[0], metrics) && NoFailure(Step(s, es[0], metrics), es[1..], metrics))
  }

  ghost predicate CarefulRun(s: Lp, es: seq<Event>, metrics: nat)
    requires Possible(s, es, metrics)
    decreases |es|
  {
    es == [] || (Careful(s, es[0]) && CarefulRun(Step(s, es[0], metrics), es[1..], metrics))
  }

  /** Over every run: no assertion fails if and only if each address enters when all others of the map have entered,
      and is destroyed when it has entered itself and, unless it was the last that had, so have all others. */
  lemma {:induction false} NoFailureIff(s: Lp, es: seq<Event>, metrics: nat)
    requires Inv(s, metrics) && Possible(s, es, metrics)
    ensures NoFailure(s, es, metrics) <==> CarefulRun(s, es, metrics)
    decreases |es|
  {
    hide Inv, Safe, Careful;
    if es != [] {
      SafeIff(s, es[0], metrics);
      if Safe(s, es[0], metrics) {
        StepKeeps(s, es[0], metrics);
        NoFailureIff(Step(s, es[0], metrics), es[1..], metrics);
      }
    }
  }

  lemma EmptyOk(metrics: nat)
    ensures Inv(Empty, metrics)
  {}

  /** The state at the end of a run. */
  ghost function After(s: Lp, es: seq<Event>, metrics: nat): Lp
    requires Possible(s, es, metrics)
    decreases |es|
  {
    if es == [] then s else After(Step(s, es[0], metrics), es[1..], metrics)
  }

  lemma {:induction false} RunKeeps(s: Lp, es: seq<Event>, metrics: nat)
    requires Inv(s, metrics) && Possible(s, es, metrics) && NoFailure(s, es, metrics)
    ensures Inv(After(s, es, metrics), metrics)
    decreases |es|
  {
    hide Inv, Safe;
    if es != [] {
      StepKeeps(s, es[0], metrics);
      RunKeeps(Step(s, es[0], metrics), es[1..], metrics);
    }
  }

  /** An input of the builder that is read off the tables, with the address map iterated in any order. */
  ghost predicate ReadOff(i: Input, s: Lp) {
    && i.peers == s.peers && NoDup(i.order) && (forall a :: a in i.order <==> a in s.book)
    && |i.quotaIndex| == NETWORKS == |i.quotaOut|
    && (forall a :: a in s.book ==> a in i.info && |i.info[a].avg| >= i.mq)
  }

  /** Whenever the problem is rebuilt without a failure, what it is built from is well formed. */
  lemma RebuildWellFormed(s: Lp, e: Event, i: Input)
    requires Inv(s, i.mq) && Enabled(s, e) && Safe(s, e, i.mq) && Rebuilds(s, e, i.mq)
    requires ReadOff(i, Step(s, e, i.mq))
    ensures WellFormed(i)
  {
    hide TableOk, WellFormed, Flat;
    StepKeeps(s, e, i.mq);
    var t := Step(s, e, i.mq);
    assert Owner(t).Keys == t.book.Keys;
    assert t.book != map[];
    Buildable(i, Owner(t));
  }

  // ---- runs that fail

  lemma Unfold(s: Lp, e: Event, es: seq<Event>, metrics: nat)
    requires Enabled(s, e) && Possible(Step(s, e, metrics), es, metrics)
    ensures Possible(s, [e] + es, metrics)
    ensures NoFailure(s, [e] + es, metrics) <==> Safe(s, e, metrics) && NoFailure(Step(s, e, metrics), es, metrics)
  {
    assert ([e] + es)[1..] == es;
  }

  /** An address is added and destroyed: its peer is not known. */
  lemma AddDestroyFails(a: Addr, id: Peer, metrics: nat)
    ensures var es := [Add(a, id)] + ([Destroy(a)] + []);
            Possible(Empty, es, metrics) && !NoFailure(Empty, es, metrics)
  {
    var s := Step(Empty, Add(a, id), metrics);
    assert !Found(s, a);
    Unfold(s, Destroy(a), [], metrics);
    Unfold(Empty, Add(a, id), [Destroy(a)] + [], metrics);
  }

  /** The peer is known by another address: the address is not in its list. */
  lemma UnlistedDestroyFails(a: Addr, b: Addr, id: Peer, metrics: nat)
    requires a != b
    ensures var es := [Add(a, id)] + ([Enter(a)] + ([Add(b, id)] + ([Destroy(b)] + [])));
            Possible(Empty, es, metrics) && !NoFailure(Empty, es, metrics)
  {
    var s1 := Step(Empty, Add(a, id), metrics);
    var s2 := Step(s1, Enter(a), metrics);
    var s3 := Step(s2, Add(b, id), metrics);
    assert s3.peers == [PeerRec(id, [a], 1.0, Ones(metrics))] && RecordOf(s3.peers, id) == Some(0);
    assert !Found(s3, b);
    Unfold(s3, Destroy(b), [], metrics);
    Unfold(s2, Add(b, id), [Destroy(b)] + [], metrics);
    Unfold(s1, Enter(a), [Add(b, id)] + ([Destroy(b)] + []), metrics);
    Unfold(Empty, Add(a, id), [Enter(a)] + ([Add(b, id)] + ([Destroy(b)] + [])), metrics);
  }

  /** Two addresses are added and one is updated: the rebuild meets the other. */
  lemma EnterFails(a: Addr, b: Addr, id: Peer, id': Peer, metrics: nat)
    requires a != b
    ensures var es := [Add(a, id)] + ([Add(b, id')] + ([Enter(a)] + []));
            Possible(Empty, es, metrics) && !NoFailure(Empty, es, metrics)
  {
    var s1 := Step(Empty, Add(a, id), metrics);
    var s2 := Step(s1, Add(b, id'), metrics);
    assert b in Step(s2, Enter(a), metrics).book && b !in Step(s2, Enter(a), metrics).info;
    Unfold(s2, Enter(a), [], metrics);
    Unfold(s1, Add(b, id'), [Enter(a)] + [], metrics);
    Unfold(Empty, Add(a, id), [Add(b, id')] + ([Enter(a)] + []), metrics);
  }

  // ---------------------------------------------------------------------
  // The tables, updated in place
  // ---------------------------------------------------------------------

  class PeerTable {
    const metrics: nat
    var book: map<Addr, Peer>      // the address map
    var info: set<Addr>            // addresses with their record for the linear program
    var peers: seq<PeerRec>

    ghost function Snap(): Lp
      reads this
    {
      Lp(book, info, peers)
    }

    ghost predicate Valid()
      reads this
    {
      Inv(Snap(), metrics)
    }

    constructor (metrics: nat)
      ensures Valid() && Snap() == Empty && this.metrics == metrics
    {
      this.metrics, book, info, peers := metrics, map[], {}, [];
    }

    method Find(id: Peer) returns (p: Option<nat>)
      ensures p == RecordOf(peers, id)
    {
      for q := 0 to |peers|
        invariant forall k :: 0 <= k < q ==> peers[k].id != id
      {
        if peers[q].id == id {
          return Some(q);
        }
      }
      return None;
    }

    /** A rebuild looks at every address of the map; `ok` says that its assertion holds for each. */
    method CheckAll() returns (ok: bool)
      ensures ok <==> forall b :: b in book ==> b in info
    {
      var todo := book.Keys;
      while todo != {}
        invariant todo <= book.Keys && forall b :: b in book && b !in todo ==> b in info
        decreases todo
      {
        var b :| b in todo;
        if b !in info {
          return false;
        }
        todo := todo - {b};
      }
      return true;
    }

    /** An address is added to the map; the linear program is not told. */
    method AddToMap(a: Addr, id: Peer)
      requires Valid() && a !in book
      modifies this
      ensures Valid() && Snap() == Step(old(Snap()), Add(a, id), metrics)
    {
      StepKeeps(Snap(), Add(a, id), metrics);
      book := book[a := id];
    }

    /** An address of the map is updated; if it is new to the linear program it enters it, and the problem is rebuilt.
        `ok` is false if an assertion fails. */
    method AddressUpdate(a: Addr) returns (ok: bool, rebuilt: bool)
      requires Valid() && a in book
      modifies this`info, this`peers
      ensures ok <==> Safe(old(Snap()), Enter(a), metrics)
      ensures ok ==> Valid() && Snap() == Step(old(Snap()), Enter(a), metrics)
      ensures rebuilt <==> Rebuilds(old(Snap()), Enter(a), metrics)
    {
      hide TableOk;
      ghost var s := Snap();
      if a in info {
        return true, false;
      }
      info := info + {a};
      var found := Find(book[a]);
      match found {
        case None => peers := [PeerRec(book[a], [a], 1.0, Ones(metrics))] + peers;
        case Some(p) => peers := peers[p := peers[p].(addrs := [a] + peers[p].addrs)];
      }
      rebuilt := true;
      assert Snap() == Step(s, Enter(a), metrics);
      EnteredOk(s, a, metrics);
      ok := CheckAll();
    }

    /** An address is destroyed and deleted from the linear program; the problem is rebuilt if anything is left of it.
        `ok` is false if an assertion fails. */
    method DestroyAddress(a: Addr) returns (ok: bool, rebuilt: bool)
      requires Valid() && a in book
      modifies this
      ensures ok <==> Safe(old(Snap()), Destroy(a), metrics)
      ensures ok ==> Valid() && Snap() == Step(old(Snap()), Destroy(a), metrics)
      ensures ok ==> (rebuilt <==> Rebuilds(old(Snap()), Destroy(a), metrics))
    {
      hide TableOk;
      ghost var s := Snap();
      var id := book[a];
      book := book - {a};
      info := info - {a};
      var head := Find(id);
      if head == None {
        return false, false;
      }
      var p := head.value;
      if a !in peers[p].addrs {
        return false, false;
      }
      FoundIff(s, a, metrics);
      DeletedOk(s, a, metrics);
      var rest := Unlinked(peers[p].addrs, a);
      if rest == [] {
        peers := peers[..p] + peers[p + 1..];
      } else {
        peers := peers[p := peers[p].(addrs := rest)];
      }
      ok, rebuilt := true, book != map[] && peers != [];
      if rebuilt {
        ok := CheckAll();
      }
    }

    /** The rebuild itself: from the tables as they are after an event that got this far. */
    method Rebuild(i: Input, ghost s: Lp, ghost e: Event) returns (b: B.Builder)
      requires Inv(s, i.mq) && Enabled(s, e) && Safe(s, e, i.mq) && Rebuilds(s, e, i.mq)
      requires Snap() == Step(s, e, i.mq) && ReadOff(i, Snap()) && i.mq <= 2
      ensures WellFormed(i) && b.i == i && b.rows == Rows(i) && b.cols == Columns(i)
      ensures fresh(b) && b.matrix.Valid() && b.matrix.emitted == Matrix(i)
    {
      hide WellFormed, Matrix, Rows, Columns;
      RebuildWellFormed(s, e, i);
      MlpShape.TwoMetricsFit(i);
      b := new B.Builder(i);
      b.CreateProblem();
    }
  }
}
