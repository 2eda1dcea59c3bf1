/**
 Session IDs between the ATS scheduling library (ats_api_scheduling.c) and the
 ATS service (gnunet-service-ats_scheduling.c): the library keeps a table of
 slots whose index is the ID, and the two sides talk over two FIFO channels.
 */
module SessionIds {
  import opened CoreTypes
  import A = Addresses

  type Sess = nat       // a session object of the transport service

  // ---------------------------------------------------------------------
  // The slot table
  // ---------------------------------------------------------------------

  datatype Slot = Slot(session: Option<Sess>, peer: Option<Peer>, used: bool)

  const Vacant := Slot(None, None, false)

  /** The ID of a session, 0 if it has none or if it was registered for another peer. */
  function IdOf(slots: seq<Slot>, x: Sess, p: Peer, i: nat): (r: nat)
    requires 1 <= i <= |slots|
    ensures r == 0 || (i <= r < |slots| && slots[r].session == Some(x) && slots[r].peer == Some(p))
    ensures r == 0 && (forall j :: i <= j < |slots| && slots[j].session == Some(x) ==> slots[j].peer == Some(p)) ==>
              forall j :: i <= j < |slots| ==> slots[j].session != Some(x)
    decreases |slots| - i
  {
    if i == |slots| then 0
    else if slots[i].session == Some(x) then (if slots[i].peer == Some(p) then i else 0)
    else IdOf(slots, x, p, i + 1)
  }

  /** The first unused slot, or the size of the table if there is none. */
  function FreeSlot(slots: seq<Slot>, i: nat): (r: nat)
    requires 1 <= i <= |slots|
    ensures i <= r <= |slots| && (r < |slots| ==> !slots[r].used)
    ensures forall j :: i <= j < r ==> slots[j].used
    decreases |slots| - i
  {
    if i == |slots| || !slots[i].used then i else FreeSlot(slots, i + 1)
  }

  function Vacancies(n: nat): (r: seq<Slot>)
    ensures |r| == n && forall j :: 0 <= j < n ==> r[j] == Vacant
  {
    if n == 0 then [] else Vacancies(n - 1) + [Vacant]
  }

  /** The table with room in slot `f`: it doubles if it was full. */
  function Grown(slots: seq<Slot>, f: nat): (r: seq<Slot>)
    requires f <= |slots|
    ensures |r| == if f == |slots| then 2 * |slots| else |slots|
    ensures forall j :: 0 <= j < |r| ==> r[j] == if j < |slots| then slots[j] else Vacant
  {
    if f == |slots| then slots + Vacancies(|slots|) else slots
  }

  /** What an ID from the service stands for. */
  function Resolve(slots: seq<Slot>, id: nat, p: Peer): Option<Sess> {
    if id >= |slots| || id == 0 then None
    else if slots[id].session == None then None
    else if slots[id].peer != Some(p) then None
    else slots[id].session
  }

  class SlotTable {
    var slots: array<Slot>
    var reconnect: bool

    constructor ()
      ensures fresh(slots) && slots[..] == Vacancies(4) && !reconnect
    {
      slots := new Slot[4](_ => Vacant);
      reconnect := false;
    }

    method FindSessionId(x: Option<Sess>, p: Peer) returns (id: nat)
      requires slots.Length >= 1
      ensures id == if x.Some? then IdOf(slots[..], x.value, p, 1) else 0
    {
      if x == None {
        return 0;
      }
      for i := 1 to slots.Length
        invariant IdOf(slots[..], x.value, p, 1) == IdOf(slots[..], x.value, p, i)
      {
        if slots[i].session == x {
          if slots[i].peer != Some(p) {
            return 0;
          }
          return i;
        }
      }
      return 0;
    }

    /** Assign an ID to a session. */
    method FindEmptySlot(x: Sess, p: Peer) returns (f: nat)
      requires slots.Length >= 1
      modifies this`slots, slots
      ensures f == FreeSlot(old(slots[..]), 1)
      ensures slots[..] == Grown(old(slots[..]), f)[f := Slot(Some(x), Some(p), true)]
      ensures slots == old(slots) || fresh(slots)
    {
      f := 0;
      for i := 1 to slots.Length
        invariant f == 0 ==> FreeSlot(slots[..], 1) == FreeSlot(slots[..], i)
        invariant f != 0 ==> 1 <= f < i && FreeSlot(slots[..], 1) == f
      {
        if f == 0 && !slots[i].used {
          f := i;
        }
      }
      if f == 0 {
        f := slots.Length;
        Grow();
      }
      assert f > 0;
      slots[f] := Slot(Some(x), Some(p), true);
    }

    method Grow()
      requires slots.Length >= 1
      modifies this`slots
      ensures fresh(slots) && slots[..] == Grown(old(slots[..]), old(slots.Length))
    {
      var bigger := new Slot[2 * slots.Length](_ => Vacant);
      for i := 0 to slots.Length
        invariant slots == old(slots) && slots[..] == old(slots[..])
        invariant forall j :: 0 <= j < i ==> bigger[j] == slots[j]
        invariant forall j :: i <= j < bigger.Length ==> bigger[j] == Vacant
      {
        bigger[i] := slots[i];
      }
      slots := bigger;
    }

    /** A session is no longer valid; its slot stays reserved. */
    method RemoveSession(id: nat, p: Peer)
      requires id != 0 ==> id < slots.Length && slots[id].used && slots[id].peer == Some(p)
      modifies slots
      ensures slots[..] == if id == 0 then old(slots[..]) else old(slots[..])[id := old(slots[id]).(session := None)]
    {
      if id == 0 {
        return;
      }
      slots[id] := slots[id].(session := None);
    }

    /** The service is done with an ID: its slot may be used again. */
    method ReleaseSession(id: nat, p: Peer)
      requires id < slots.Length ==> slots[id].session == None
      modifies this`reconnect, slots
      ensures slots[..] == if id < slots.Length && old(slots[id]).peer == Some(p)
                           then old(slots[..])[id := Vacant] else old(slots[..])
      ensures reconnect == (old(reconnect) || id >= slots.Length || old(slots[id]).peer != Some(p))
    {
      if id >= slots.Length {
        reconnect := true;
        return;
      }
      assert slots[id].session == None;
      if slots[id].peer != Some(p) {
        reconnect := true;
        return;
      }
      slots[id] := slots[id].(used := false, peer := None);
    }

    /** The session that the service means by an ID. */
    method FindSession(id: nat, p: Peer) returns (x: Option<Sess>)
      modifies this`reconnect
      ensures x == Resolve(slots[..], id, p)
      ensures reconnect ==
                (old(reconnect) || (0 < id < slots.Length && slots[id].session.Some? && slots[id].peer != Some(p)))
    {
      if id >= slots.Length {
        return None;
      }
      if id == 0 {
        return None;
      }
      if slots[id].session == None {
        return None;
      }
      if slots[id].peer != Some(p) {
        reconnect := true;
        return None;
      }
      return slots[id].session;
    }

    // ---- the calls of the library; `msgs` are the messages for the service

    /** A session has a used slot. */
    ghost predicate Tidy()
      reads this, slots
    {
      slots.Length >= 1 && forall i :: 0 <= i < slots.Length && slots[i].session.Some? ==> slots[i].used
    }

    method AddressAdd(p: Peer, plugin: nat, addr: seq<nat>, x: Option<Sess>) returns (msgs: seq<ToService>)
      requires Tidy()
      modifies this`slots, slots
      ensures Tidy() && (slots == old(slots) || fresh(slots))
      ensures var t := Step(At(old(slots[..])), AddCall(p, plugin, addr, x)); slots[..] == t.slots && msgs == t.up
    {
      var id := 0;
      if x.Some? {
        id := FindSessionId(x, p);
        if id != 0 {
          return [];
        }
        id := FindEmptySlot(x.value, p);
      }
      return [AddMsg(A.Name(p, plugin, addr, id, x, false))];
    }

    method AddressDestroyed(p: Peer, plugin: nat, addr: seq<nat>, x: Option<Sess>) returns (msgs: seq<ToService>)
      requires Tidy()
      modifies slots
      ensures Tidy()
      ensures var t := Step(At(old(slots[..])), DestroyCall(p, plugin, addr, x)); slots[..] == t.slots && msgs == t.up
    {
      var id := FindSessionId(x, p);
      if x.Some? && id == 0 {
        return [];
      }
      msgs := [DestroyedMsg(A.Name(p, plugin, addr, id, None, false))];
      RemoveSession(id, p);
    }

    method AddressInUse(p: Peer, plugin: nat, addr: seq<nat>, x: Option<Sess>, inUse: bool)
      returns (msgs: seq<ToService>)
      requires Tidy()
      modifies this`slots, slots
      ensures Tidy() && (slots == old(slots) || fresh(slots))
      ensures var t := Step(At(old(slots[..])), UseCall(p, plugin, addr, x, inUse));
              slots[..] == t.slots && msgs == t.up
    {
      var id := 0;
      if x.Some? {
        id := FindSessionId(x, p);
        if id == 0 && !inUse {
          return [];
        }
        if id == 0 && inUse {
          id := FindEmptySlot(x.value, p);
          assert id != 0;
        }
      }
      return [UseMsg(A.Name(p, plugin, addr, id, None, false), inUse)];
    }
  }

  // ---------------------------------------------------------------------
  // The protocol
  // ---------------------------------------------------------------------

  /** Addresses as the two sides name them; `ats` remembers which session was meant when it was added. */
  type Name = A.Name<Option<Sess>>

  datatype ToService = AddMsg(name: Name) | DestroyedMsg(name: Name) | UseMsg(name: Name, inUse: bool)

  datatype ToClient = SuggestMsg(name: Name) | ReleaseMsg(peer: Peer, sid: nat)

  /** `added` remembers the addition made under each ID, `cut` that the service dropped the connection, `lost` that
      messages may have been lost with a connection. */
  datatype State = State(
    slots: seq<Slot>,
    up: seq<ToService>,
    down: seq<ToClient>,
    names: seq<Name>,
    added: map<nat, Name>,
    reconnect: bool,
    cut: bool,
    lost: bool)

  const Initial := At(Vacancies(4))

  /** A new connection. */
  function At(slots: seq<Slot>): State {
    State(slots, [], [], [], map[], false, false, false)
  }

  datatype Event =
    | AddCall(peer: Peer, plugin: nat, addr: seq<nat>, session: Option<Sess>)
    | DestroyCall(peer: Peer, plugin: nat, addr: seq<nat>, session: Option<Sess>)
    | UseCall(peer: Peer, plugin: nat, addr: seq<nat>, session: Option<Sess>, inUse: bool)
    | ServiceReceives(sent: seq<Name>)     // the suggestions made while the message is processed
    | ServiceSuggests(name: Name)
    | ClientReceives
    | Reconnects(keep: nat)                // all but the last `keep` messages to the service were on their way

  function Suggestions(ns: seq<Name>): (r: seq<ToClient>)
    ensures |r| == |ns| && forall k :: 0 <= k < |r| ==> r[k] == SuggestMsg(ns[k])
  {
    if ns == [] then [] else Suggestions(ns[..|ns| - 1]) + [SuggestMsg(ns[|ns| - 1])]
  }

  function SidFor(s: State, session: Option<Sess>, p: Peer): nat
    requires |s.slots| >= 1
  {
    if session.Some? then IdOf(s.slots, session.value, p, 1) else 0
  }

  /** The service refuses the message, and drops the connection. */
  predicate Refuses(ns: seq<Name>, m: ToService) {
    m.UseMsg? && A.Marked(ns, m.name, m.inUse) == None
  }

  /** The table of the service after a message; with the connection all addresses go. */
  function NamesAfter(ns: seq<Name>, m: ToService): seq<Name> {
    match m
    case AddMsg(n) => A.Added(ns, n)
    case DestroyedMsg(n) => A.Destroyed(ns, n)
    case UseMsg(n, inUse) => if Refuses(ns, m) then [] else A.Marked(ns, n, inUse).value
  }

  /** What callers and the service keep to: a destroyed session is named by the address it was added with,
      or by an empty address of the same plugin; only addresses in the table are suggested. */
  ghost predicate Enabled(s: State, e: Event) {
    |s.slots| >= 1 &&
    match e
    case AddCall(_, _, _, _) => true
    case DestroyCall(p, plugin, addr, x) =>
      SidFor(s, x, p) in s.added ==> NamedAsAdded(s, SidFor(s, x, p), plugin, addr)
    case UseCall(_, _, _, _, _) => true
    case ServiceReceives(sent) =>
      s.up != [] && !s.cut && forall n :: n in sent ==> n in s.names || n in NamesAfter(s.names, s.up[0])
    case ServiceSuggests(n) => n in s.names && !s.cut
    case ClientReceives => s.down != []
    case Reconnects(keep) => keep <= |s.up|
  }

  ghost predicate NamedAsAdded(s: State, sid: nat, plugin: nat, addr: seq<nat>) {
    sid in s.added && s.added[sid].plugin == plugin && (s.added[sid].addr == addr || addr == [])
  }

  /** The assertions in the code that the event runs into hold. */
  ghost predicate Safe(s: State, e: Event) {
    match e
    case DestroyCall(p, _, _, x) =>
      |s.slots| >= 1 &&
      var id := SidFor(s, x, p);
      id != 0 ==> id < |s.slots| && s.slots[id].used && s.slots[id].peer == Some(p)
    case ClientReceives =>
      s.down != [] && (s.down[0].ReleaseMsg? && s.down[0].sid < |s.slots| ==> s.slots[s.down[0].sid].session == None)
    case _ => true
  }

  function Assigned(slots: seq<Slot>, f: nat, x: Sess, p: Peer): seq<Slot>
    requires 1 <= f <= |slots|
  {
    Grown(slots, f)[f := Slot(Some(x), Some(p), true)]
  }

  function Step(s: State, e: Event): (t: State)
    requires |s.slots| >= 1
    ensures |t.slots| >= |s.slots|
  {
    match e
    case AddCall(p, plugin, addr, None) => s.(up := s.up + [AddMsg(A.Name(p, plugin, addr, 0, None, false))])
    case AddCall(p, plugin, addr, Some(x)) =>
      if SidFor(s, Some(x), p) != 0 then s else
        var f := FreeSlot(s.slots, 1);
        var n := A.Name(p, plugin, addr, f, Some(x), false);
        s.(slots := Assigned(s.slots, f, x, p), added := s.added[f := n], up := s.up + [AddMsg(n)])
    case DestroyCall(p, plugin, addr, x) =>
      var id := SidFor(s, x, p);
      if x.Some? && id == 0 then s else
        s.(up := s.up + [DestroyedMsg(A.Name(p, plugin, addr, id, None, false))],
           slots := if id == 0 then s.slots else s.slots[id := s.slots[id].(session := None)])
    case UseCall(p, plugin, addr, None, inUse) =>
      s.(up := s.up + [UseMsg(A.Name(p, plugin, addr, 0, None, false), inUse)])
    case UseCall(p, plugin, addr, Some(x), inUse) =>
      var id := SidFor(s, Some(x), p);
      if id != 0 then s.(up := s.up + [UseMsg(A.Name(p, plugin, addr, id, None, false), inUse)])
      else if !inUse then s
      else
        var f := FreeSlot(s.slots, 1);
        s.(slots := Assigned(s.slots, f, x, p), added := s.added - {f},
           up := s.up + [UseMsg(A.Name(p, plugin, addr, f, None, false), inUse)])
    case ServiceReceives(sent) =>
      if s.up == [] then s else
        var m := s.up[0];
        var t := s.(up := s.up[1..], names := NamesAfter(s.names, m));
        if Refuses(s.names, m) then t.(cut := true) else
          var released := if m.DestroyedMsg? && m.name.sid != 0 then [ReleaseMsg(m.name.peer, m.name.sid)] else [];
          t.(down := s.down + Suggestions(sent) + released)
    case ServiceSuggests(n) => s.(down := s.down + [SuggestMsg(n)])
    case ClientReceives =>
      if s.down == [] then s else
        var t := s.(down := s.down[1..]);
        (match s.down[0]
         case SuggestMsg(n) =>
          var known := 0 < n.sid < |s.slots| && s.slots[n.sid].session.Some?;
          t.(reconnect := s.reconnect || (known && s.slots[n.sid].peer != Some(n.peer)))
         case ReleaseMsg(p, id) =>
          if id >= |s.slots| || s.slots[id].peer != Some(p) then t.(reconnect := true)
          else t.(slots := s.slots[id := Vacant]))
    case Reconnects(keep) =>
      s.(up := if keep <= |s.up| then s.up[|s.up| - keep..] else s.up, down := [], names := [],
         reconnect := false, cut := false, lost := true)
  }

  // ---- what is kept

  function DestroysOf(up: seq<ToService>, id: nat): nat {
    if up == [] then 0 else
      DestroysOf(up[..|up| - 1], id) + if up[|up| - 1].DestroyedMsg? && up[|up| - 1].name.sid == id then 1 else 0
  }

  function ReleasesOf(down: seq<ToClient>, id: nat): nat {
    if down == [] then 0 else
      ReleasesOf(down[..|down| - 1], id) + if down[|down| - 1].ReleaseMsg? && down[|down| - 1].sid == id then 1 else 0
  }

  /** The name is of the addition made under the present use of its ID. */
  ghost predicate Current(s: State, n: Name) {
    n.sid != 0 ==>
      n.sid < |s.slots| && s.slots[n.sid].used && n.sid in s.added && n.(used := false) == s.added[n.sid]
  }

  /** The slot was removed and not released. */
  ghost predicate Removed(s: State, id: nat) {
    0 < id < |s.slots| && s.slots[id].used && s.slots[id].session == None
  }

  /** A used slot has a peer; an addition made under its ID, if there was one, is for that peer and session. */
  ghost predicate SlotOk(s: State, id: nat)
    requires id < |s.slots|
  {
    var t := s.slots[id];
    if t.used then
      && id != 0 && t.peer.Some?
      && (id in s.added ==>
            && s.added[id].sid == id && !s.added[id].used && t.peer == Some(s.added[id].peer)
            && (t.session.Some? ==> s.added[id].ats == t.session))
    else t == Vacant
  }

  ghost predicate UpOk(s: State, m: ToService) {
    match m
    case AddMsg(n) => Current(s, n)
    case DestroyedMsg(n) =>
      n.sid != 0 ==>
        && Removed(s, n.sid) && s.slots[n.sid].peer == Some(n.peer)
        && (n.sid in s.added ==> A.Exact(s.added[n.sid], n))
    case UseMsg(n, _) => n.sid != 0 ==> n.sid < |s.slots| && s.slots[n.sid].used
  }

  ghost predicate DownOk(s: State, m: ToClient) {
    match m
    case SuggestMsg(n) => Current(s, n)
    case ReleaseMsg(p, id) => Removed(s, id) && s.slots[id].peer == Some(p)
  }

  /** Of a removed ID at most one DESTROYED or RELEASE is under way, and exactly one unless connections were lost;
      of any other ID none is. */
  ghost predicate OneUnderWay(s: State, id: nat) {
    var n := DestroysOf(s.up, id) + ReleasesOf(s.down, id);
    if Removed(s, id) then n <= 1 && (!s.lost ==> n == 1) else n == 0
  }

  /** Nothing about an ID is behind its destruction. */
  ghost predicate UpOrdered(up: seq<ToService>) {
    forall j, k :: 0 <= j < k < |up| && up[j].DestroyedMsg? && !up[k].DestroyedMsg? && up[j].name.sid != 0 ==>
      up[j].name.sid != up[k].name.sid
  }

  /** After a release nothing refers to its ID any more. */
  ghost predicate Final(s: State, k: nat)
    requires k < |s.down| && s.down[k].ReleaseMsg?
  {
    var id := s.down[k].sid;
    && (forall j :: k < j < |s.down| && s.down[j].SuggestMsg? ==> s.down[j].name.sid != id)
    && (forall m :: m in s.up && !m.DestroyedMsg? ==> m.name.sid != id)
    && (forall n :: n in s.names ==> n.sid != id)
  }

  ghost predicate Inv(s: State) {
    && |s.slots| >= 2 && !s.reconnect
    && (forall id :: 0 <= id < |s.slots| ==> SlotOk(s, id))
    && (forall n :: n in s.names ==> Current(s, n))
    && (forall m :: m in s.up ==> UpOk(s, m))
    && (forall m :: m in s.down ==> DownOk(s, m))
    && (forall id: nat :: id != 0 ==> OneUnderWay(s, id))
    && UpOrdered(s.up)
    && (forall k :: 0 <= k < |s.down| && s.down[k].ReleaseMsg? ==> Final(s, k))
  }

  lemma InitialOk()
    ensures Inv(Initial)
  {}

  /** No assertion fails. */
  lemma StepSafe(s: State, e: Event)
    requires Inv(s) && Enabled(s, e)
    ensures Safe(s, e)
  {
    match e {
      case DestroyCall(p, _, _, x) =>
        var id := SidFor(s, x, p);
        if id != 0 { assert SlotOk(s, id); }
      case ClientReceives =>
        assert DownOk(s, s.down[0]);
      case _ =>
    }
  }

  /** A suggestion that resolves to a session resolves to the one that was meant. */
  lemma SuggestionRight(s: State, n: Name)
    requires Inv(s) && SuggestMsg(n) in s.down
    ensures n.sid != 0 ==> Resolve(s.slots, n.sid, n.peer) == None || Resolve(s.slots, n.sid, n.peer) == n.ats
  {
    assert DownOk(s, SuggestMsg(n));
    if n.sid != 0 {
      assert SlotOk(s, n.sid);
    }
  }

  /** An ID is assigned only when nothing refers to it: its last release was processed. */
  lemma AssignedUnused(s: State, f: nat)
    requires Inv(s) && f == FreeSlot(s.slots, 1)
    ensures DestroysOf(s.up, f) == 0 && ReleasesOf(s.down, f) == 0
    ensures forall m :: m in s.up ==> m.name.sid != f
    ensures forall m :: m in s.down ==> if m.SuggestMsg? then m.name.sid != f else m.sid != f
    ensures forall n :: n in s.names ==> n.sid != f
  {
    assert OneUnderWay(s, f);
    forall m | m in s.up ensures m.name.sid != f {
      assert UpOk(s, m);
    }
    forall m | m in s.down ensures if m.SuggestMsg? then m.name.sid != f else m.sid != f {
      assert DownOk(s, m);
    }
    forall n | n in s.names ensures n.sid != f {
      assert Current(s, n);
    }
  }

  lemma DestroysSnoc(up: seq<ToService>, m: ToService, id: nat)
    ensures DestroysOf(up + [m], id) == DestroysOf(up, id) + if m.DestroyedMsg? && m.name.sid == id then 1 else 0
  {
    assert (up + [m])[..|up|] == up;
  }

  lemma {:induction false} DestroysPop(up: seq<ToService>, id: nat)
    requires up != []
    ensures DestroysOf(up, id) == DestroysOf(up[1..], id) + if up[0].DestroyedMsg? && up[0].name.sid == id then 1 else 0
  {
    if |up| > 1 {
      var m := |up| - 1;
      DestroysPop(up[..m], id);
      assert up[..m][1..] == up[1..][..m - 1];
    } else {
      assert up[..0] == [] && up[1..] == [];
    }
  }

  lemma ReleasesSnoc(down: seq<ToClient>, m: ToClient, id: nat)
    ensures ReleasesOf(down + [m], id) == ReleasesOf(down, id) + if m.ReleaseMsg? && m.sid == id then 1 else 0
  {
    assert (down + [m])[..|down|] == down;
  }

  lemma {:induction false} ReleasesPop(down: seq<ToClient>, id: nat)
    requires down != []
    ensures ReleasesOf(down, id) ==
              ReleasesOf(down[1..], id) + if down[0].ReleaseMsg? && down[0].sid == id then 1 else 0
  {
    if |down| > 1 {
      var m := |down| - 1;
      ReleasesPop(down[..m], id);
      assert down[..m][1..] == down[1..][..m - 1];
    } else {
      assert down[..0] == [] && down[1..] == [];
    }
  }

  lemma {:induction false} ReleasesSuggestions(down: seq<ToClient>, ns: seq<Name>, id: nat)
    ensures ReleasesOf(down + Suggestions(ns), id) == ReleasesOf(down, id)
  {
    if ns == [] {
      assert down + Suggestions(ns) == down;
    } else {
      var m := |ns| - 1;
      ReleasesSuggestions(down, ns[..m], id);
      ReleasesSnoc(down + Suggestions(ns[..m]), SuggestMsg(ns[m]), id);
      assert down + Suggestions(ns) == down + Suggestions(ns[..m]) + [SuggestMsg(ns[m])];
    }
  }

  /** An ID is assigned to a session and a message about it is sent: its addition, or that it is used. */
  lemma AssignKeeps(s: State, t: State, f: nat, x: Sess, m: ToService)
    requires Inv(s) && f == FreeSlot(s.slots, 1) && m.name.sid == f && !m.DestroyedMsg?
    requires m.AddMsg? ==> m.name.ats == Some(x) && !m.name.used
    requires t == s.(slots := Assigned(s.slots, f, x, m.name.peer), up := s.up + [m],
                     added := if m.AddMsg? then s.added[f := m.name] else s.added - {f})
    ensures Inv(t)
  {
    hide DestroysOf, ReleasesOf;
    AssignedUnused(s, f);
    forall id | 0 <= id < |t.slots| ensures SlotOk(t, id) {
      if id != f && id < |s.slots| { assert SlotOk(s, id); }
    }
    forall u | u in t.up ensures UpOk(t, u) {
      if u in s.up { assert UpOk(s, u); }
    }
    forall d | d in t.down ensures DownOk(t, d) { assert DownOk(s, d); }
    forall id: nat | id != 0 ensures OneUnderWay(t, id) {
      DestroysSnoc(s.up, m, id);
      assert OneUnderWay(s, id);
    }
    assert UpOrdered(t.up) by { assert forall u :: u in s.up ==> u.name.sid != f; }
    AssignRest(s, t, f, m);
  }

  lemma AssignRest(s: State, t: State, f: nat, m: ToService)
    requires Inv(s) && f == FreeSlot(s.slots, 1) && m.name.sid == f && t.names == s.names && t.down == s.down
    requires t.up == s.up + [m] && |t.slots| >= |s.slots|
    requires forall id :: 0 <= id < |s.slots| && id != f ==> t.slots[id] == s.slots[id]
    requires forall id :: id != f ==>
               (id in t.added <==> id in s.added) && (id in s.added ==> t.added[id] == s.added[id])
    ensures forall n :: n in t.names ==> Current(t, n)
    ensures forall k :: 0 <= k < |t.down| && t.down[k].ReleaseMsg? ==> Final(t, k)
  {
    hide DestroysOf, ReleasesOf;
    AssignedUnused(s, f);
    forall k | 0 <= k < |t.down| && t.down[k].ReleaseMsg? ensures Final(t, k) {
      assert Final(s, k) && t.down[k] in s.down;
    }
  }

  /** A message about no session, or that a session with an ID is used, changes nothing that is kept. */
  lemma PlainKeeps(s: State, m: ToService)
    requires Inv(s)
    requires m.name.sid == 0 || (m.UseMsg? && m.name.sid < |s.slots| && s.slots[m.name.sid].session.Some?)
    ensures Inv(s.(up := s.up + [m]))
  {
    hide DestroysOf, ReleasesOf;
    var t := s.(up := s.up + [m]);
    if m.name.sid != 0 {
      assert SlotOk(s, m.name.sid);
    }
    forall id | 0 <= id < |t.slots| ensures SlotOk(t, id) { assert SlotOk(s, id); }
    forall u | u in t.up ensures UpOk(t, u) {
      if u in s.up { assert UpOk(s, u); }
    }
    forall d | d in t.down ensures DownOk(t, d) { assert DownOk(s, d); }
    forall id: nat | id != 0 ensures OneUnderWay(t, id) {
      DestroysSnoc(s.up, m, id);
      assert OneUnderWay(s, id);
    }
    forall k | 0 <= k < |t.down| && t.down[k].ReleaseMsg? ensures Final(t, k) {
      assert Final(s, k) && DownOk(s, t.down[k]);
    }
    assert UpOrdered(t.up) by {
      forall j | 0 <= j < |s.up| && s.up[j].DestroyedMsg? && s.up[j].name.sid != 0
        ensures s.up[j].name.sid != m.name.sid
      {
        assert UpOk(s, s.up[j]);
      }
    }
  }

  lemma DestroyKeeps(s: State, p: Peer, plugin: nat, addr: seq<nat>, id: nat)
    requires Inv(s) && 0 < id < |s.slots| && s.slots[id].session.Some? && s.slots[id].peer == Some(p)
    requires id in s.added ==> NamedAsAdded(s, id, plugin, addr)
    ensures Inv(s.(up := s.up + [DestroyedMsg(A.Name(p, plugin, addr, id, None, false))],
                   slots := s.slots[id := s.slots[id].(session := None)]))
  {
    hide DestroysOf, ReleasesOf;
    var m := DestroyedMsg(A.Name(p, plugin, addr, id, None, false));
    var t := s.(up := s.up + [m], slots := s.slots[id := s.slots[id].(session := None)]);
    assert SlotOk(s, id);
    forall j | 0 <= j < |t.slots| ensures SlotOk(t, j) { assert SlotOk(s, j); }
    forall n | n in t.names ensures Current(t, n) { assert Current(s, n); }
    forall u | u in t.up ensures UpOk(t, u) {
      if u in s.up { assert UpOk(s, u); }
    }
    forall d | d in t.down ensures DownOk(t, d) { assert DownOk(s, d); }
    forall j: nat | j != 0 ensures OneUnderWay(t, j) {
      DestroysSnoc(s.up, m, j);
      assert OneUnderWay(s, j);
    }
    forall k | 0 <= k < |t.down| && t.down[k].ReleaseMsg? ensures Final(t, k) {
      assert Final(s, k) && DownOk(s, t.down[k]);
    }
  }

  // ---- the service's table

  /** Adding brings no session into the table but the one added. */
  lemma AddedNames(ns: seq<Name>, q: Name, n: Name)
    requires n in A.Added(ns, q)
    ensures n in ns || n.(used := false) == q.(used := false) || n.sid == 0
  {
    A.FindSpec(ns, q, 0, None);
    var r := A.Find(ns, q, 0, None);
    if r.Some? && ns[r.value].sid == 0 && n !in ns {
      assert n == ns[r.value].(sid := q.sid, ats := q.ats);
    }
  }

  /** Destroying brings no session into the table. */
  lemma DestroyedNames(ns: seq<Name>, q: Name, n: Name)
    requires n in A.Destroyed(ns, q)
    ensures n in ns || n.sid == 0
  {
    A.SweptMember(ns, q, n);
  }

  /** If what is destroyed is named as it was added, its session is gone from the table. */
  lemma DestroyedGone(ns: seq<Name>, q: Name, n: Name)
    requires q.sid != 0 && n in A.Destroyed(ns, q)
    requires forall m :: m in ns && m.sid == q.sid ==> m.peer == q.peer && A.Exact(m, q)
    ensures n.sid != q.sid
  {
    A.FindSpec(ns, q, 0, None);
    A.SweptMember(ns, q, n);
  }

  /** What the table holds after a message it held before, or was added, but for the mark of use. */
  lemma NamesFrom(ns: seq<Name>, m: ToService, n: Name)
    requires n in NamesAfter(ns, m)
    ensures || n.sid == 0
            || (exists o :: o in ns && o.(used := false) == n.(used := false))
            || (m.AddMsg? && n.(used := false) == m.name.(used := false))
  {
    match m {
      case AddMsg(q) => AddedNames(ns, q, n);
      case DestroyedMsg(q) => DestroyedNames(ns, q, n);
      case UseMsg(q, inUse) =>
        var i := A.Lookup(ns, q).value;
        assert ns[i] in ns;
        if n !in ns {
          assert n == ns[i].(used := inUse);
        }
    }
  }

  /** The name may be told to the library: it is current, and no release of its ID is under way. */
  ghost predicate Sayable(s: State, n: Name) {
    Current(s, n) && (n.sid != 0 ==> forall k :: 0 <= k < |s.down| && s.down[k].ReleaseMsg? ==> s.down[k].sid != n.sid)
  }

  lemma NamesSayable(s: State, n: Name)
    requires Inv(s) && (n in s.names || (s.up != [] && n in NamesAfter(s.names, s.up[0])))
    ensures Sayable(s, n)
  {
    hide NamesAfter;
    if n !in s.names {
      assert UpOk(s, s.up[0]);
      NamesFrom(s.names, s.up[0], n);
      if o :| o in s.names && o.(used := false) == n.(used := false) {
        assert Current(s, o);
      }
    }
    if n.sid != 0 {
      forall k | 0 <= k < |s.down| && s.down[k].ReleaseMsg? ensures s.down[k].sid != n.sid {
        assert Final(s, k);
        assert s.up != [] ==> s.up[0] in s.up;
      }
    }
  }

  lemma DestroyedLeaves(s: State, n: Name)
    requires Inv(s) && s.up != [] && s.up[0].DestroyedMsg? && s.up[0].name.sid != 0 && n in NamesAfter(s.names, s.up[0])
    ensures n.sid != s.up[0].name.sid
  {
    var q := s.up[0].name;
    assert UpOk(s, s.up[0]) && SlotOk(s, q.sid);
    forall m | m in s.names && m.sid == q.sid ensures m.peer == q.peer && A.Exact(m, q) {
      assert Current(s, m);
    }
    DestroyedGone(s.names, q, n);
  }

  /** Suggestions of addresses in the table, or about to be. */
  lemma SuggestKeeps(s: State, ns: seq<Name>)
    requires Inv(s) && forall n :: n in ns ==> Sayable(s, n)
    ensures Inv(s.(down := s.down + Suggestions(ns)))
  {
    hide DestroysOf, ReleasesOf, Suggestions;
    var t := s.(down := s.down + Suggestions(ns));
    forall id | 0 <= id < |t.slots| ensures SlotOk(t, id) { assert SlotOk(s, id); }
    forall n | n in t.names ensures Current(t, n) { assert Current(s, n); }
    forall u | u in t.up ensures UpOk(t, u) { assert UpOk(s, u); }
    forall d | d in t.down ensures DownOk(t, d) {
      if d in s.down { assert DownOk(s, d); } else { assert Sayable(s, d.name); }
    }
    forall id: nat | id != 0 ensures OneUnderWay(t, id) {
      ReleasesSuggestions(s.down, ns, id);
      assert OneUnderWay(s, id);
    }
    forall k | 0 <= k < |t.down| && t.down[k].ReleaseMsg? ensures Final(t, k) {
      assert t.down[k] == s.down[k] && Final(s, k) && DownOk(s, s.down[k]);
      forall j | k < j < |t.down| && t.down[j].SuggestMsg? ensures t.down[j].name.sid != t.down[k].sid {
        if j >= |s.down| { assert Sayable(s, t.down[j].name); }
      }
    }
  }

  /** An addition or a mark of use is taken off the channel and the table updated. */
  lemma TakeKeeps(s: State, cut: bool)
    requires Inv(s) && s.up != [] && !s.up[0].DestroyedMsg?
    ensures Inv(s.(up := s.up[1..], names := NamesAfter(s.names, s.up[0]), cut := cut))
  {
    hide DestroysOf, ReleasesOf, NamesAfter;
    var t := s.(up := s.up[1..], names := NamesAfter(s.names, s.up[0]), cut := cut);
    forall id | 0 <= id < |t.slots| ensures SlotOk(t, id) { assert SlotOk(s, id); }
    forall n | n in t.names ensures Current(t, n) && Sayable(s, n) { NamesSayable(s, n); }
    forall u | u in t.up ensures UpOk(t, u) { assert UpOk(s, u); }
    forall d | d in t.down ensures DownOk(t, d) { assert DownOk(s, d); }
    forall id: nat | id != 0 ensures OneUnderWay(t, id) {
      DestroysPop(s.up, id);
      assert OneUnderWay(s, id);
    }
    forall k | 0 <= k < |t.down| && t.down[k].ReleaseMsg? ensures Final(t, k) {
      assert Final(s, k) && DownOk(s, t.down[k]);
      forall n | n in t.names ensures n.sid != t.down[k].sid { assert Sayable(s, n); }
    }
  }

  lemma TakeDestroyKeeps(s: State)
    requires Inv(s) && s.up != [] && s.up[0].DestroyedMsg?
    ensures var q := s.up[0].name;
            var t := s.(up := s.up[1..], names := NamesAfter(s.names, s.up[0]));
            Inv(if q.sid == 0 then t else t.(down := s.down + [ReleaseMsg(q.peer, q.sid)]))
  {
    hide DestroysOf, ReleasesOf, NamesAfter;
    var q := s.up[0].name;
    var taken := s.(up := s.up[1..], names := NamesAfter(s.names, s.up[0]));
    var t := if q.sid == 0 then taken else taken.(down := s.down + [ReleaseMsg(q.peer, q.sid)]);
    assert UpOk(s, s.up[0]);
    forall id | 0 <= id < |t.slots| ensures SlotOk(t, id) { assert SlotOk(s, id); }
    forall n | n in t.names ensures Current(t, n) && Sayable(s, n) { NamesSayable(s, n); }
    forall u | u in t.up ensures UpOk(t, u) { assert UpOk(s, u); }
    forall d | d in t.down ensures DownOk(t, d) {
      if d in s.down { assert DownOk(s, d); }
    }
    forall id: nat | id != 0 ensures OneUnderWay(t, id) {
      DestroysPop(s.up, id);
      ReleasesSnoc(s.down, ReleaseMsg(q.peer, q.sid), id);
      assert OneUnderWay(s, id);
    }
    forall k | 0 <= k < |t.down| && t.down[k].ReleaseMsg? ensures Final(t, k) {
      if k < |s.down| {
        assert Final(s, k) && DownOk(s, s.down[k]);
        forall n | n in t.names ensures n.sid != t.down[k].sid { assert Sayable(s, n); }
      } else {
        forall n | n in t.names ensures n.sid != q.sid { DestroyedLeaves(s, n); }
        forall m | m in t.up && !m.DestroyedMsg? ensures m.name.sid != q.sid {
          var j :| 0 < j < |s.up| && s.up[j] == m;
          assert s.up[0].DestroyedMsg? && !s.up[j].DestroyedMsg?;
        }
      }
    }
  }

  lemma ServiceKeeps(s: State, sent: seq<Name>)
    requires Inv(s) && Enabled(s, ServiceReceives(sent))
    ensures Inv(Step(s, ServiceReceives(sent)))
  {
    hide Inv, NamesAfter, DestroysOf, ReleasesOf, Suggestions, Refuses;
    if Refuses(s.names, s.up[0]) {
      OnlyUseRefused(s.names, s.up[0]);
      TakeKeeps(s, true);
      return;
    }
    var s1 := s.(down := s.down + Suggestions(sent));
    forall n | n in sent ensures Sayable(s, n) { NamesSayable(s, n); }
    SuggestKeeps(s, sent);
    var t := Step(s, ServiceReceives(sent));
    if s.up[0].DestroyedMsg? {
      TakeDestroyKeeps(s1);
      var q := s.up[0].name;
      var u := s1.(up := s.up[1..], names := NamesAfter(s.names, s.up[0]));
      assert t == if q.sid == 0 then u else u.(down := s1.down + [ReleaseMsg(q.peer, q.sid)]);
    } else {
      TakeKeeps(s1, s.cut);
      assert t == s1.(up := s.up[1..], names := NamesAfter(s.names, s.up[0]));
    }
  }

  lemma OnlyUseRefused(ns: seq<Name>, m: ToService)
    requires Refuses(ns, m)
    ensures m.UseMsg?
  {}

  // ---- the library receives, and reconnects

  lemma {:induction false} NoDestroy(up: seq<ToService>, id: nat)
    requires DestroysOf(up, id) == 0
    ensures forall m :: m in up && m.DestroyedMsg? ==> m.name.sid != id
  {
    if up != [] {
      NoDestroy(up[..|up| - 1], id);
      assert up == up[..|up| - 1] + [up[|up| - 1]];
    }
  }

  lemma {:induction false} NoRelease(down: seq<ToClient>, id: nat)
    requires ReleasesOf(down, id) == 0
    ensures forall m :: m in down && m.ReleaseMsg? ==> m.sid != id
  {
    if down != [] {
      NoRelease(down[..|down| - 1], id);
      assert down == down[..|down| - 1] + [down[|down| - 1]];
    }
  }

  lemma FinalShift(s: State, t: State, k: nat)
    requires s.down != [] && t.down == s.down[1..] && k < |t.down| && t.down[k].ReleaseMsg?
    requires t.up == s.up && t.names == s.names && Final(s, k + 1)
    ensures Final(t, k)
  {
    forall j | k < j < |t.down| && t.down[j].SuggestMsg? ensures t.down[j].name.sid != t.down[k].sid {
      assert t.down[j] == s.down[j + 1];
    }
  }

  lemma ClientSuggestKeeps(s: State)
    requires Inv(s) && s.down != [] && s.down[0].SuggestMsg?
    ensures Inv(Step(s, ClientReceives))
  {
    hide DestroysOf, ReleasesOf;
    var t := Step(s, ClientReceives);
    var n := s.down[0].name;
    assert DownOk(s, s.down[0]);
    assert n.sid != 0 ==> SlotOk(s, n.sid);
    forall id | 0 <= id < |t.slots| ensures SlotOk(t, id) { assert SlotOk(s, id); }
    forall n | n in t.names ensures Current(t, n) { assert Current(s, n); }
    forall u | u in t.up ensures UpOk(t, u) { assert UpOk(s, u); }
    forall d | d in t.down ensures DownOk(t, d) { assert DownOk(s, d); }
    forall id: nat | id != 0 ensures OneUnderWay(t, id) {
      ReleasesPop(s.down, id);
      assert OneUnderWay(s, id);
    }
    forall k | 0 <= k < |t.down| && t.down[k].ReleaseMsg? ensures Final(t, k) {
      assert t.down[k] == s.down[k + 1];
      FinalShift(s, t, k);
    }
  }

  lemma ClientReleaseKeeps(s: State)
    requires Inv(s) && s.down != [] && s.down[0].ReleaseMsg?
    ensures Inv(Step(s, ClientReceives))
  {
    hide DestroysOf, ReleasesOf;
    var t := Step(s, ClientReceives);
    var id := s.down[0].sid;
    assert DownOk(s, s.down[0]) && SlotOk(s, id) && OneUnderWay(s, id) && Final(s, 0);
    ReleasesPop(s.down, id);
    NoDestroy(s.up, id);
    NoRelease(t.down, id);
    forall j | 0 <= j < |t.slots| ensures SlotOk(t, j) { assert SlotOk(s, j); }
    forall n | n in t.names ensures Current(t, n) { assert Current(s, n); }
    forall u | u in t.up ensures UpOk(t, u) { assert UpOk(s, u); }
    forall k | 0 <= k < |t.down| ensures DownOk(t, t.down[k]) {
      assert t.down[k] == s.down[k + 1] && s.down[k + 1] in s.down;
      assert DownOk(s, s.down[k + 1]);
    }
    forall j: nat | j != 0 ensures OneUnderWay(t, j) {
      ReleasesPop(s.down, j);
      assert OneUnderWay(s, j);
    }
    forall k | 0 <= k < |t.down| && t.down[k].ReleaseMsg? ensures Final(t, k) {
      assert t.down[k] == s.down[k + 1];
      FinalShift(s, t, k);
    }
  }

  lemma {:induction false} DestroysSuffix(up: seq<ToService>, i: nat, id: nat)
    requires i <= |up|
    ensures DestroysOf(up[i..], id) <= DestroysOf(up, id)
    decreases i
  {
    if i == 0 {
      assert up[0..] == up;
    } else {
      DestroysPop(up, id);
      DestroysSuffix(up[1..], i - 1, id);
      assert up[1..][i - 1..] == up[i..];
    }
  }

  /** A lost connection takes with it what was under way, and all addresses of the service; slots stay. */
  lemma ReconnectKeeps(s: State, keep: nat)
    requires Inv(s) && keep <= |s.up|
    ensures Inv(Step(s, Reconnects(keep)))
  {
    hide DestroysOf, ReleasesOf;
    var t := Step(s, Reconnects(keep));
    forall id | 0 <= id < |t.slots| ensures SlotOk(t, id) { assert SlotOk(s, id); }
    forall u | u in t.up ensures UpOk(t, u) { assert u in s.up && UpOk(s, u); }
    forall id: nat | id != 0 ensures OneUnderWay(t, id) {
      DestroysSuffix(s.up, |s.up| - keep, id);
      NothingReleased(id);
      assert OneUnderWay(s, id);
    }
  }

  lemma NothingReleased(id: nat)
    ensures ReleasesOf([], id) == 0
  {}

  /** Every event keeps the invariant. */
  lemma StepKeeps(s: State, e: Event)
    requires Inv(s) && Enabled(s, e)
    ensures Inv(Step(s, e))
  {
    hide Inv, Current, Final, DestroysOf, ReleasesOf, Suggestions;
    match e {
      case AddCall(p, plugin, addr, None) =>
        PlainKeeps(s, AddMsg(A.Name(p, plugin, addr, 0, None, false)));
      case AddCall(p, plugin, addr, Some(x)) =>
        if SidFor(s, Some(x), p) == 0 {
          var f := FreeSlot(s.slots, 1);
          AssignKeeps(s, Step(s, e), f, x, AddMsg(A.Name(p, plugin, addr, f, Some(x), false)));
        }
      case DestroyCall(p, plugin, addr, x) =>
        var id := SidFor(s, x, p);
        if id != 0 {
          DestroyKeeps(s, p, plugin, addr, id);
        } else if x.None? {
          PlainKeeps(s, DestroyedMsg(A.Name(p, plugin, addr, 0, None, false)));
        }
      case UseCall(p, plugin, addr, x, inUse) =>
        UseKeeps(s, p, plugin, addr, x, inUse);
      case ServiceReceives(sent) =>
        ServiceKeeps(s, sent);
      case ServiceSuggests(n) =>
        OneSuggestion(n);
        NamesSayable(s, n);
        SuggestKeeps(s, [n]);
      case ClientReceives =>
        if s.down[0].SuggestMsg? {
          ClientSuggestKeeps(s);
        } else {
          ClientReleaseKeeps(s);
        }
      case Reconnects(keep) =>
        ReconnectKeeps(s, keep);
    }
  }

  lemma UseKeeps(s: State, p: Peer, plugin: nat, addr: seq<nat>, x: Option<Sess>, inUse: bool)
    requires Inv(s)
    ensures Inv(Step(s, UseCall(p, plugin, addr, x, inUse)))
  {
    hide Current, Final, DestroysOf, ReleasesOf, SlotOk, UpOk, DownOk, OneUnderWay, UpOrdered;
    var id := SidFor(s, x, p);
    if x.None? || id != 0 {
      PlainKeeps(s, UseMsg(A.Name(p, plugin, addr, id, None, false), inUse));
    } else if inUse {
      var f := FreeSlot(s.slots, 1);
      AssignKeeps(s, Step(s, UseCall(p, plugin, addr, x, inUse)), f, x.value,
                  UseMsg(A.Name(p, plugin, addr, f, None, false), inUse));
    }
  }

  lemma OneSuggestion(n: Name)
    ensures Suggestions([n]) == [SuggestMsg(n)]
  {}

  /** A run: every event is one that can happen in the state it finds. */
  ghost predicate Run(s: State, es: seq<Event>, t: State)
    decreases |es|
  {
    if es == [] then s == t else Enabled(s, es[0]) && Run(Step(s, es[0]), es[1..], t)
  }

  /** In every run, over any number of connections, no assertion fails, the library never asks for a reconnect because
      the sides fell out of step, and every suggestion resolves to the session that was meant, or to none. */
  lemma {:induction false} RunSafe(s: State, es: seq<Event>, t: State, e: Event, n: Name)
    requires Inv(s) && Run(s, es, t)
    ensures Inv(t) && !t.reconnect
    ensures Enabled(t, e) ==> Safe(t, e)
    ensures SuggestMsg(n) in t.down && n.sid != 0 ==> Resolve(t.slots, n.sid, n.peer) in {None, n.ats}
    decreases |es|
  {
    if es == [] {
      if Enabled(t, e) {
        StepSafe(t, e);
      }
      if SuggestMsg(n) in t.down {
        SuggestionRight(t, n);
      }
    } else {
      StepKeeps(s, es[0]);
      RunSafe(Step(s, es[0]), es[1..], t, e, n);
    }
  }

  // ---- when the service drops the connection

  /** Exactly when: no address of the peer matches with the session named, or the one found is marked so already. */
  lemma RefusedIff(ns: seq<Name>, n: Name, inUse: bool)
    ensures Refuses(ns, UseMsg(n, inUse)) <==>
              || !(exists j :: 0 <= j < |ns| && ns[j].peer == n.peer && A.Exact(ns[j], n))
              || (A.Lookup(ns, n).Some? && ns[A.Lookup(ns, n).value].used == inUse)
  {
    A.LookupIff(ns, n);
  }

  /** An ID that was assigned by use, not by an addition, is always refused. */
  lemma UnaddedRefused(s: State, n: Name, inUse: bool)
    requires Inv(s) && n.sid != 0 && n.sid !in s.added
    ensures Refuses(s.names, UseMsg(n, inUse))
  {
    RefusedIff(s.names, n, inUse);
    forall j | 0 <= j < |s.names| ensures s.names[j].sid != n.sid {
      assert Current(s, s.names[j]);
    }
  }

  /** And such a session is never added afterwards: the library takes its addition for a duplicate. */
  lemma UsedNotAdded(s: State, p: Peer, plugin: nat, addr: seq<nat>, x: Sess, plugin': nat, addr': seq<nat>)
    requires Inv(s) && forall j :: 0 <= j < |s.slots| ==> s.slots[j].session != Some(x)
    ensures var t := Step(s, UseCall(p, plugin, addr, Some(x), true));
            var f := FreeSlot(s.slots, 1);
            && SidFor(t, Some(x), p) == f && f !in t.added
            && t.up == s.up + [UseMsg(A.Name(p, plugin, addr, f, None, false), true)]
            && Step(t, AddCall(p, plugin', addr', Some(x))) == t
  {
    var f := FreeSlot(s.slots, 1);
    OnlyAt(Assigned(s.slots, f, x, p), x, p, f, 1);
    AbsentId(s.slots, x, p, 1);
  }

  lemma {:induction false} OnlyAt(slots: seq<Slot>, x: Sess, p: Peer, f: nat, i: nat)
    requires 1 <= i <= f < |slots| && slots[f].session == Some(x) && slots[f].peer == Some(p)
    requires forall j :: i <= j < f ==> slots[j].session != Some(x)
    ensures IdOf(slots, x, p, i) == f
    decreases f - i
  {
    if i < f {
      OnlyAt(slots, x, p, f, i + 1);
    }
  }

  lemma {:induction false} AbsentId(slots: seq<Slot>, x: Sess, p: Peer, i: nat)
    requires 1 <= i <= |slots| && forall j :: 0 <= j < |slots| ==> slots[j].session != Some(x)
    ensures IdOf(slots, x, p, i) == 0
    decreases |slots| - i
  {
    if i < |slots| {
      AbsentId(slots, x, p, i + 1);
    }
  }

  /** From the start: a new session is said to be used before it was added, and the service drops the connection. */
  lemma UsedFirst()
    ensures var s := Step(Initial, UseCall(1, 0, [7], Some(10), true));
            && Enabled(s, ServiceReceives([])) && Step(s, ServiceReceives([])).cut
  {
    InitialOk();
    AbsentId(Initial.slots, 10, 1, 1);
    var s := Step(Initial, UseCall(1, 0, [7], Some(10), true));
    assert s.up[0] == UseMsg(A.Name(1, 0, [7], 1, None, false), true);
    RefusedIff([], s.up[0].name, true);
  }

  // ---- when a session is destroyed under another name

  /** The naming is exactly what is needed: it decides whether the session leaves the table. */
  lemma DestroyedIff(ns: seq<Name>, q: Name, a: Name)
    requires q.sid != 0 && a in ns && a.sid == q.sid && a.peer == q.peer
    requires forall m :: m in ns && m.sid == q.sid ==> m == a
    ensures A.Exact(a, q) <==> forall n :: n in A.Destroyed(ns, q) ==> n.sid != q.sid
  {
    if A.Exact(a, q) {
      forall n | n in A.Destroyed(ns, q) ensures n.sid != q.sid {
        DestroyedGone(ns, q, n);
      }
    } else {
      A.FindSpec(ns, q, 0, None);
      assert a in A.Destroyed(ns, q);
    }
  }

  const Stale := A.Name(1, 0, [7], 1, Some(10), false)

  /** Seven events in a row, from the start. */
  function Seventh(e1: Event, e2: Event, e3: Event, e4: Event, e5: Event, e6: Event, e7: Event): State {
    Step(Step(Step(Step(Step(Step(Step(Initial, e1), e2), e3), e4), e5), e6), e7)
  }

  /** A session destroyed under another address stays in the service's table after its ID was released, and
      a suggestion of it reaches the next session with that ID. */
  lemma Misnamed()
    ensures var s := Seventh(AddCall(1, 0, [7], Some(10)), ServiceReceives([]),
                             DestroyCall(1, 0, [8], Some(10)), ServiceReceives([]), ClientReceives,
                             AddCall(1, 0, [9], Some(11)), ServiceSuggests(Stale));
            && s.names == [Stale] && s.down == [SuggestMsg(Stale)] && Resolve(s.slots, 1, 1) == Some(11)
  {
    hide Step;
    MisnamedDestroy();
    MisnamedRelease();
    MisnamedReuse();
  }

  const Misled := At(Vacancies(4)[1 := Slot(None, Some(1), true)]).(
    up := [DestroyedMsg(A.Name(1, 0, [8], 1, None, false))], names := [Stale], added := map[1 := Stale])

  const Reused := At(Vacancies(4)).(names := [Stale], added := map[1 := Stale])

  lemma MisnamedDestroy()
    ensures Step(Step(Step(Initial, AddCall(1, 0, [7], Some(10))), ServiceReceives([])),
                 DestroyCall(1, 0, [8], Some(10))) == Misled
  {
    var s1 := Step(Initial, AddCall(1, 0, [7], Some(10)));
    assert s1 == At(Vacancies(4)[1 := Slot(Some(10), Some(1), true)]).(up := [AddMsg(Stale)], added := map[1 := Stale]);
    var s2 := Step(s1, ServiceReceives([]));
    assert s2 == s1.(up := [], names := [Stale]);
  }

  lemma MisnamedRelease()
    ensures Step(Step(Misled, ServiceReceives([])), ClientReceives) == Reused
  {
    var s := Step(Misled, ServiceReceives([]));
    var q := Misled.up[0].name;
    assert A.Find(Misled.names, q, 0, None) == A.Find(Misled.names, q, 1, None) by {
      assert Stale.addr[0] == 7 && q.addr[0] == 8;
    }
    assert s.names == [Stale] && s.up == [] && s.down == [ReleaseMsg(1, 1)];
    assert Misled.slots[1 := Vacant] == Vacancies(4);
  }

  lemma MisnamedReuse()
    ensures var s := Step(Step(Reused, AddCall(1, 0, [9], Some(11))), ServiceSuggests(Stale));
            && s.names == [Stale] && s.down == [SuggestMsg(Stale)] && Resolve(s.slots, 1, 1) == Some(11)
  {}
}
