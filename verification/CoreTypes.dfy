/**
 Vocabulary shared by the modules of the core service: identities, message
 types, what a client may ask for and what is queued for a client.
 */
module CoreTypes {

  type Peer = nat      // a peer identity
  type Handle = nat    // a client connection of the server
  type MsgType = t: nat | t < 65536
  type Ref = nat       // address of a heap-allocated transmission request

  datatype Option<+T> = None | Some(value: T)

  /** Largest payload that is encrypted into one message, in bytes. */
  const MAX_ENCRYPTED := 63 * 1024

  /** The four bits of a client's option word. */
  datatype Flag = FullInbound | HdrInbound | FullOutbound | HdrOutbound

  /** A message queued for a client by the notification context. */
  datatype Notice =
    | InitReply
    | Connect(peer: Peer)
    | Disconnect(peer: Peer)
    | SendReady(peer: Peer)
    | Traffic(peer: Peer, mtype: MsgType, flag: Flag)

  /** States of a key exchange. */
  datatype Status = Down | KeySent | KeyReceived | Up | Rekey | RekeySent

  /** A client's request to transmit; shared by its client and by a session. */
  datatype Request = Request(owner: Handle, target: Peer, deadline: nat, size: nat, solicited: bool)

  datatype Client = Client(
    types: seq<MsgType>,
    options: set<Flag>,
    requests: map<Peer, Ref>,
    asked: bool,                 // its request map exists: it asked to send before
    connected: set<Peer>,
    outbox: seq<Notice>)

  /** The part of a session that clients can see. */
  datatype Session = Session(tmap: set<MsgType>, queue: seq<Ref>)

  ghost predicate NoDup<T>(s: seq<T>) {
    forall i, j :: 0 <= i < j < |s| ==> s[i] != s[j]
  }

  /** Unlinking one element of a list. */
  function Without(q: seq<Ref>, x: Ref): (r: seq<Ref>)
    ensures forall y :: y in r <==> y in q && y != x
    ensures NoDup(q) ==> NoDup(r)
    ensures x !in q ==> r == q
    ensures |r| <= |q|
  {
    if q == [] then [] else
      var rest := Without(q[1..], x);
      assert q == [q[0]] + q[1..];
      assert NoDup(q) ==> q[0] !in rest;
      assert NoDup(q) ==> NoDup(q[1..]);
      if q[0] == x then rest else [q[0]] + rest
  }

  lemma {:induction false} WithoutMiddle(a: seq<Ref>, x: Ref, b: seq<Ref>)
    requires NoDup(a + [x] + b)
    ensures Without(a + [x] + b, x) == a + b
  {
    var q := a + [x] + b;
    if a == [] {
      assert q[1..] == b;
      assert x !in b by {
        forall j | 0 <= j < |b| ensures b[j] != x { assert q[j + 1] == b[j] && q[0] == x; }
      }
      assert a + b == b;
    } else {
      assert q[1..] == a[1..] + [x] + b;
      assert NoDup(q[1..]);
      WithoutMiddle(a[1..], x, b);
      assert q[0] != x by { assert q[0] == a[0] && q[|a|] == x; }
      assert a + b == [a[0]] + (a[1..] + b);
    }
  }
}
