/**
 One peer of the chat service (gnunet-service-chat.c): the list of members with
 the number of the last message and receipt seen from each, and the bounded list
 of recent anonymous messages.
 */
module Chat {
  import opened CoreTypes

  type Id = nat         // a chat member
  type Number = n: nat | n < 0x1_0000_0000

  const MAX_ANONYMOUS := 16

  datatype Member = Member(
    id: Id,
    room: nat,
    client: Option<Handle>,      // none for members at other peers
    options: set<nat>,
    msgNumber: Number,
    rcptNumber: Number)

  /** A chat message; peers take a message with a target to be private, whatever the sender declared. */
  datatype Text = Text(
    sender: Id,
    number: Number,
    options: set<nat>,
    declaredPrivate: bool,
    target: Option<Id>,
    anonymous: bool,
    room: nat,                   // only anonymous messages name their room
    hash: nat)

  /** A receipt, whose signature may verify or not. */
  datatype Receipt = Receipt(target: Id, number: Number, author: Id, signed: bool)

  /** Numbers are 32 bits wide. */
  function NextNumber(n: Number): (r: Number)
    ensures r == n + 1 || (r == 0 && n == 0xFFFF_FFFF)
  {
    if n == 0xFFFF_FFFF then 0 else n + 1
  }

  /** What is numbered: the messages of a member, or its receipts. */
  datatype Stream = Texts(id: Id) | Receipts(id: Id)

  /** The first entry of a member. */
  function IndexOf(ms: seq<Member>, id: Id): (r: Option<nat>)
    ensures r.Some? ==> r.value < |ms| && ms[r.value].id == id && forall k :: 0 <= k < r.value ==> ms[k].id != id
    ensures r.None? ==> forall k :: 0 <= k < |ms| ==> ms[k].id != id
  {
    if ms == [] then None
    else if ms[0].id == id then Some(0)
    else match IndexOf(ms[1..], id)
      case None => None
      case Some(k) => Some(k + 1)
  }

  /** The entry of a client of this peer. */
  function EntryOf(ms: seq<Member>, client: Handle): (r: Option<nat>)
    ensures r.Some? ==> r.value < |ms| && ms[r.value].client == Some(client)
    ensures r.Some? ==> forall k :: 0 <= k < r.value ==> ms[k].client != Some(client)
    ensures r.None? ==> forall k :: 0 <= k < |ms| ==> ms[k].client != Some(client)
  {
    if ms == [] then None
    else if ms[0].client == Some(client) then Some(0)
    else match EntryOf(ms[1..], client)
      case None => None
      case Some(k) => Some(k + 1)
  }

  /** One entry with another message number. */
  function Renumbered(ms: seq<Member>, k: nat, n: Number): seq<Member>
    requires k < |ms|
  {
    ms[k := ms[k].(msgNumber := n)]
  }

  /** The last number seen of a stream. */
  function LastOf(ms: seq<Member>, s: Stream): Option<Number> {
    match IndexOf(ms, s.id)
    case None => None
    case Some(k) => Some(if s.Texts? then ms[k].msgNumber else ms[k].rcptNumber)
  }

  function Recorded(ms: seq<Member>, s: Stream, n: Number): seq<Member> {
    match IndexOf(ms, s.id)
    case None => ms
    case Some(k) => ms[k := if s.Texts? then ms[k].(msgNumber := n) else ms[k].(rcptNumber := n)]
  }

  /** The stream is known and the number is beyond the last one seen. */
  predicate Fresh(ms: seq<Member>, s: Stream, n: Number) {
    LastOf(ms, s).Some? && LastOf(ms, s).value < n
  }

  /**
   The number of a client's own message is recorded in the client's entry, but looked for in the first entry of
   its member: exactly when another entry of the member, with a lower number, comes first, the peer is going to
   take an echo of the message for new.
   */
  lemma EchoIff(ms: seq<Member>, k: nat, n: Number)
    requires k < |ms|
    ensures IndexOf(ms, ms[k].id).Some?
    ensures var j := IndexOf(ms, ms[k].id).value;
            Fresh(Renumbered(ms, k, n), Texts(ms[k].id), n) <==> j != k && ms[j].msgNumber < n
  {
    SameIndex(ms, Renumbered(ms, k, n), ms[k].id);
  }

  lemma RecordedLast(ms: seq<Member>, s: Stream, n: Number, t: Stream)
    requires LastOf(ms, s).Some?
    ensures LastOf(Recorded(ms, s, n), t) == if t == s then Some(n) else LastOf(ms, t)
  {
    var k := IndexOf(ms, s.id).value;
    var ns := Recorded(ms, s, n);
    SameIndex(ms, ns, t.id);
  }

  lemma {:induction false} SameIndex(ms: seq<Member>, ns: seq<Member>, id: Id)
    requires |ms| == |ns| && forall k :: 0 <= k < |ms| ==> ms[k].id == ns[k].id
    ensures IndexOf(ms, id) == IndexOf(ns, id)
  {}

  /** A local member of the room that may see the message. */
  predicate Hears(m: Member, room: nat, options: set<nat>, target: Option<Id>) {
    m.room == room && m.client.Some? && (target == None || target == Some(m.id)) && options <= m.options
  }

  /** Whom the sender's own peer takes the message to be for. */
  function Aim(m: Text): Option<Id> {
    if m.declaredPrivate then m.target else None
  }

  /** The clients that get a message, in the order of the list. */
  ghost function Audience(ms: seq<Member>, room: nat, options: set<nat>, target: Option<Id>, except: Option<Handle>)
    : seq<Handle>
  {
    if ms == [] then [] else
      var m := ms[|ms| - 1];
      Audience(ms[..|ms| - 1], room, options, target, except)
      + if Hears(m, room, options, target) && m.client != except then [m.client.value] else []
  }

  /** The places of the entries that get a message. */
  ghost function Places(ms: seq<Member>, room: nat, options: set<nat>, target: Option<Id>, except: Option<Handle>)
    : seq<nat>
  {
    if ms == [] then [] else
      var k := |ms| - 1;
      Places(ms[..k], room, options, target, except)
      + if Hears(ms[k], room, options, target) && ms[k].client != except then [k] else []
  }

  /** Places below a bound, in order. */
  ghost predicate Ascending(at: seq<nat>, n: nat) {
    && (forall i :: 0 <= i < |at| ==> at[i] < n)
    && (forall i, j :: 0 <= i < j < |at| ==> at[i] < at[j])
  }

  /** There are at most n places below n, and n of them begin with the first. */
  lemma {:induction false} AscendingShort(at: seq<nat>, n: nat)
    requires Ascending(at, n)
    ensures |at| <= n && (|at| == n && n > 0 ==> 0 in at)
  {
    if n > 0 {
      if at != [] && at[|at| - 1] == n - 1 {
        AscendingShort(at[..|at| - 1], n - 1);
      } else {
        assert Ascending(at, n - 1);
        AscendingShort(at, n - 1);
      }
    }
  }

  lemma {:induction false} PlacesSorted(ms: seq<Member>, room: nat, options: set<nat>, target: Option<Id>,
                                        except: Option<Handle>)
    ensures Ascending(Places(ms, room, options, target, except), |ms|)
  {
    if ms != [] {
      PlacesSorted(ms[..|ms| - 1], room, options, target, except);
    }
  }

  lemma {:induction false} PlacesMember(ms: seq<Member>, room: nat, options: set<nat>, target: Option<Id>,
                                        except: Option<Handle>, k: nat)
    requires k < |ms|
    ensures k in Places(ms, room, options, target, except) <==>
              Hears(ms[k], room, options, target) && ms[k].client != except
  {
    var m := |ms| - 1;
    PlacesSorted(ms[..m], room, options, target, except);
    var rest := Places(ms[..m], room, options, target, except);
    assert m !in rest;
    assert Places(ms, room, options, target, except) ==
           rest + if Hears(ms[m], room, options, target) && ms[m].client != except then [m] else [];
    if k < m {
      PlacesMember(ms[..m], room, options, target, except, k);
    }
  }

  lemma {:induction false} PlacesClients(ms: seq<Member>, room: nat, options: set<nat>, target: Option<Id>,
                                         except: Option<Handle>)
    ensures var at, out := Places(ms, room, options, target, except), Audience(ms, room, options, target, except);
            |out| == |at| && forall i :: 0 <= i < |at| ==> at[i] < |ms| && Some(out[i]) == ms[at[i]].client
  {
    if ms != [] {
      PlacesClients(ms[..|ms| - 1], room, options, target, except);
    }
  }

  /**
   A message reaches, in the order of the list and once for each entry, exactly the clients other than the excepted
   one whose entries are in the room, are the target if there is one, and allow all options of the message.
   */
  lemma AudienceExact(ms: seq<Member>, room: nat, options: set<nat>, target: Option<Id>, except: Option<Handle>)
    returns (at: seq<nat>)
    ensures Ascending(at, |ms|)
    ensures forall k :: 0 <= k < |ms| ==> (k in at <==>
              && ms[k].room == room && ms[k].client != None && ms[k].client != except
              && (target == None || target == Some(ms[k].id)) && (forall o :: o in options ==> o in ms[k].options))
    ensures var out := Audience(ms, room, options, target, except);
            |out| == |at| && forall i :: 0 <= i < |at| ==> Some(out[i]) == ms[at[i]].client
  {
    hide Audience, Places;
    at := Places(ms, room, options, target, except);
    PlacesSorted(ms, room, options, target, except);
    PlacesClients(ms, room, options, target, except);
    forall k | 0 <= k < |ms|
      ensures k in at <==>
        && ms[k].room == room && ms[k].client != None && ms[k].client != except
        && (target == None || target == Some(ms[k].id)) && (forall o :: o in options ==> o in ms[k].options)
    {
      PlacesMember(ms, room, options, target, except, k);
    }
  }

  /** A text of a member elsewhere reaches the client in its room. */
  method TextHeard() returns (out: seq<Handle>)
    ensures out == [3]
  {
    hide Audience;
    var node := new Node();
    var other, local := Member(7, 1, None, {}, 0, 0), Member(8, 1, Some(3), {}, 0, 0);
    node.members := [other, local];
    var to;
    out, to := node.HandleText(Text(7, 1, {}, false, None, false, 0, 0));
    ghost var ms := node.members;
    assert ms == [other.(msgNumber := 1), local];
    ghost var at := AudienceExact(ms, 1, {}, None, None);
    AscendingShort(at, 2);
    assert 1 in at && 0 !in at;
  }

  /** The most recent hashes, newest first: one less than the limit. */
  function Recent(anon: seq<nat>, hash: nat): (r: seq<nat>)
    ensures |anon| < MAX_ANONYMOUS ==> |r| < MAX_ANONYMOUS
  {
    if |anon| + 1 == MAX_ANONYMOUS then ([hash] + anon)[..MAX_ANONYMOUS - 1] else [hash] + anon
  }

  /** The list after a run of anonymous messages. */
  function RecentOf(history: seq<nat>): seq<nat> {
    if history == [] then [] else Recent(RecentOf(history[..|history| - 1]), history[|history| - 1])
  }

  /** Exactly the last fifteen messages are remembered, newest first. */
  lemma {:induction false} RemembersFifteen(history: seq<nat>)
    ensures var r := RecentOf(history);
            && |r| == (if |history| < MAX_ANONYMOUS then |history| else MAX_ANONYMOUS - 1)
            && forall k :: 0 <= k < |r| ==> r[k] == history[|history| - 1 - k]
  {
    if history != [] {
      var m := |history| - 1;
      var h, r := history[..m], RecentOf(history[..m]);
      RemembersFifteen(h);
      RecentStep(r, history[m], h);
      assert h + [history[m]] == history;
    }
  }

  lemma RecentStep(r: seq<nat>, hash: nat, h: seq<nat>)
    requires |r| == (if |h| < MAX_ANONYMOUS then |h| else MAX_ANONYMOUS - 1)
    requires forall k :: 0 <= k < |r| ==> r[k] == h[|h| - 1 - k]
    ensures var q, g := Recent(r, hash), h + [hash];
            && |q| == (if |g| < MAX_ANONYMOUS then |g| else MAX_ANONYMOUS - 1)
            && forall k :: 0 <= k < |q| ==> q[k] == g[|g| - 1 - k]
  {
    var q, g := Recent(r, hash), h + [hash];
    forall k | 0 <= k < |q| ensures q[k] == g[|g| - 1 - k] {
      assert q[k] == if k == 0 then hash else r[k - 1];
    }
  }

  class Node {
    var members: seq<Member>
    var anonymous: seq<nat>
    var peers: set<Peer>

    constructor ()
      ensures members == [] && anonymous == [] && peers == {}
    {
      members, anonymous, peers := [], [], {};
    }

    method Find(id: Id) returns (r: Option<nat>)
      ensures r == IndexOf(members, id)
    {
      for k := 0 to |members|
        invariant forall j :: 0 <= j < k ==> members[j].id != id
      {
        if members[k].id == id {
          return Some(k);
        }
      }
      return None;
    }

    method Remember(hash: nat)
      requires |anonymous| < MAX_ANONYMOUS
      modifies this`anonymous
      ensures anonymous == Recent(old(anonymous), hash) && |anonymous| < MAX_ANONYMOUS
    {
      anonymous := [hash] + anonymous;
      var len := 1;
      while len < |anonymous|
        invariant len <= |anonymous|
      {
        len := len + 1;
      }
      if len == MAX_ANONYMOUS {
        anonymous := anonymous[..len - 1];
      }
    }

    method Lookup(hash: nat) returns (b: bool)
      ensures b <==> hash in anonymous
    {
      var k := 0;
      while k < |anonymous| && anonymous[k] != hash
        invariant k <= |anonymous| && hash !in anonymous[..k]
      {
        k := k + 1;
      }
      assert k == |anonymous| ==> anonymous[..k] == anonymous;
      return k < |anonymous|;
    }

    /** The local clients that get a message. */
    method Tell(room: nat, options: set<nat>, target: Option<Id>, except: Option<Handle>) returns (out: seq<Handle>)
      ensures out == Audience(members, room, options, target, except)
    {
      out := [];
      for k := 0 to |members|
        invariant out == Audience(members[..k], room, options, target, except)
      {
        var m := members[k];
        assert members[..k + 1][..k] == members[..k];
        if m.room == room && m.client.Some? && m.client != except {
          if (target == None || target == Some(m.id)) && options <= m.options {
            out := out + [m.client.value];
          }
        }
      }
      assert members[..|members|] == members;
    }

    /** A message from another peer: delivered and passed on to all peers, unless it was handled already. */
    method HandleText(m: Text) returns (out: seq<Handle>, to: set<Peer>)
      requires |anonymous| < MAX_ANONYMOUS
      modifies this`members, this`anonymous
      ensures |anonymous| < MAX_ANONYMOUS
      ensures m.anonymous ==> members == old(members)
      ensures m.anonymous && m.hash in old(anonymous) ==> anonymous == old(anonymous) && out == [] && to == {}
      ensures m.anonymous && m.hash !in old(anonymous) ==>
                && anonymous == Recent(old(anonymous), m.hash) && to == peers
                && out == Audience(members, m.room, m.options, m.target, None)
      ensures !m.anonymous ==> anonymous == old(anonymous)
      ensures !m.anonymous && !Fresh(old(members), Texts(m.sender), m.number) ==>
                members == old(members) && out == [] && to == {}
      ensures !m.anonymous && Fresh(old(members), Texts(m.sender), m.number) ==>
                && members == Recorded(old(members), Texts(m.sender), m.number) && to == peers
                && var room := old(members)[IndexOf(old(members), m.sender).value].room;
                   out == Audience(members, room, m.options, m.target, None)
    {
      var room;
      if m.anonymous {
        var known := Lookup(m.hash);
        if known {
          return [], {};
        }
        Remember(m.hash);
        room := m.room;
      } else {
        var sender := Find(m.sender);
        if sender == None {
          return [], {};
        }
        var k := sender.value;
        if members[k].msgNumber >= m.number {
          return [], {};
        }
        members := members[k := members[k].(msgNumber := m.number)];
        SameIndex(old(members), members, m.sender);
        room := members[k].room;
      }
      out := Tell(room, m.options, m.target, None);
      to := peers;
    }

    /** A receipt from another peer: passed on unless its author is here, or it was handled already. */
    method HandleReceipt(m: Receipt) returns (out: Option<Handle>, to: set<Peer>)
      modifies this`members
      ensures !Fresh(old(members), Receipts(m.target), m.number) ==> members == old(members) && out == None && to == {}
      ensures Fresh(old(members), Receipts(m.target), m.number) ==>
                && members == Recorded(old(members), Receipts(m.target), m.number)
                && match IndexOf(members, m.author)
                   case None => out == None && to == {}
                   case Some(k) =>
                     if members[k].client == None then out == None && to == peers
                     else out == (if m.signed then members[k].client else None) && to == {}
    {
      out, to := None, {};
      var target := Find(m.target);
      if target == None {
        return;
      }
      var k := target.value;
      if members[k].rcptNumber >= m.number {
        return;
      }
      members := members[k := members[k].(rcptNumber := m.number)];
      SameIndex(old(members), members, m.target);
      var author := Find(m.author);
      if author == None {
        return;
      }
      if members[author.value].client == None {
        to := peers;
        return;
      }
      if m.signed {
        out := members[author.value].client;
      }
    }

    /** A local client sends a message: it goes to the local members of its room and to all peers.  Its number
        counts even if the message is refused for its target. */
    method HandleTransmit(client: Handle, m: Text) returns (ok: bool, out: seq<Handle>, to: set<Peer>)
      requires |anonymous| < MAX_ANONYMOUS
      modifies this`members, this`anonymous
      ensures |anonymous| < MAX_ANONYMOUS
      ensures ok <==>
                && EntryOf(old(members), client).Some?
                && (m.declaredPrivate ==> m.target.Some? && IndexOf(old(members), m.target.value).Some?)
      ensures members == match EntryOf(old(members), client)
                case None => old(members)
                case Some(k) => Renumbered(old(members), k, m.number)
      ensures !ok ==> out == [] && to == {} && anonymous == old(anonymous)
      ensures ok ==>
                && to == peers
                && anonymous == (if m.anonymous then Recent(old(anonymous), m.hash) else old(anonymous))
                && var room := old(members)[EntryOf(old(members), client).value].room;
                   out == Audience(members, room, m.options, Aim(m), Some(client))
    {
      var k := 0;
      while k < |members| && members[k].client != Some(client)
        invariant k <= |members| && forall j :: 0 <= j < k ==> members[j].client != Some(client)
      {
        k := k + 1;
      }
      if k == |members| {
        return false, [], {};
      }
      members := members[k := members[k].(msgNumber := m.number)];
      if m.declaredPrivate {
        if m.target == None {
          return false, [], {};
        }
        SameIndex(old(members), members, m.target.value);
        var target := Find(m.target.value);
        if target == None {
          return false, [], {};
        }
      }
      out := Tell(members[k].room, m.options, if m.declaredPrivate then m.target else None, Some(client));
      if m.anonymous {
        Remember(m.hash);
      }
      to := peers;
      ok := true;
    }

    /** A local client acknowledges a message: the receipt goes to the author's client, or, under the next number
        of its target, to all peers. */
    method HandleAcknowledge(target: Id, author: Id, signed: bool)
      returns (out: Option<Handle>, to: set<Peer>, number: Number)
      modifies this`members
      ensures IndexOf(old(members), author).None? || IndexOf(old(members), target).None? ==>
                members == old(members) && out == None && to == {}
      ensures IndexOf(old(members), author).Some? && IndexOf(old(members), target).Some? ==>
                var a := old(members)[IndexOf(old(members), author).value].client;
                if a.Some? then members == old(members) && to == {} && out == if signed then a else None
                else
                  && number == NextNumber(LastOf(old(members), Receipts(target)).value)
                  && members == Recorded(old(members), Receipts(target), number) && out == None && to == peers
    {
      out, to, number := None, {}, 0;
      var a := Find(author);
      if a == None {
        return;
      }
      var t := Find(target);
      if t == None {
        return;
      }
      if members[a.value].client == None {
        number := NextNumber(members[t.value].rcptNumber);
        members := members[t.value := members[t.value].(rcptNumber := number)];
        to := peers;
      } else {
        if signed {
          out := members[a.value].client;
        }
      }
    }
  }
}
