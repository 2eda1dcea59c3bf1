/**
 The address table of the ATS service (gnunet-service-ats_addresses.c): which
 addresses and sessions are known, and the equal shares of the quota that SIMPLE
 mode gives to the active ones.
 */
module Addresses {
  import opened CoreTypes

  /** What identifies an address: its peer, plugin and bytes, and its session; 0 stands for no session.
      `ats` is the performance data that came with it, `used` says that transport uses it. */
  datatype Name<T> = Name(peer: Peer, plugin: nat, addr: seq<nat>, sid: nat, ats: T, used: bool)

  datatype Address<T> = Address(name: Name<T>, active: bool, bwIn: nat, bwOut: nat, distance: nat, latency: nat)

  // ---------------------------------------------------------------------
  // Finding an address
  // ---------------------------------------------------------------------

  predicate SameAddr<T>(n: Name<T>, q: Name<T>) {
    n.plugin == q.plugin && n.addr == q.addr
  }

  /** Same address and session; or, for an inbound address, same plugin and session. */
  predicate Exact<T>(n: Name<T>, q: Name<T>) {
    (SameAddr(n, q) && n.sid == q.sid) || (q.addr == [] && n.plugin == q.plugin && n.sid == q.sid)
  }

  /** Same address, and no session yet. */
  predicate Base<T>(n: Name<T>, q: Name<T>) {
    SameAddr(n, q) && n.sid == 0
  }

  /** The first exact match from `k` on, else the last base match. */
  function Find<T>(ns: seq<Name<T>>, q: Name<T>, k: nat, base: Option<nat>): (r: Option<nat>)
    requires k <= |ns| && (base.Some? ==> base.value < |ns|)
    ensures r.Some? ==> r.value < |ns|
    decreases |ns| - k
  {
    if k == |ns| then base
    else if ns[k].peer != q.peer then Find(ns, q, k + 1, base)
    else if Exact(ns[k], q) then Some(k)
    else Find(ns, q, k + 1, if Base(ns[k], q) then Some(k) else base)
  }

  ghost predicate Candidate<T>(n: Name<T>, q: Name<T>) {
    n.peer == q.peer && (Exact(n, q) || Base(n, q))
  }

  /** What is found matches; with the session asked for it is an exact match; nothing is missed. */
  lemma {:induction false} FindSpec<T>(ns: seq<Name<T>>, q: Name<T>, k: nat, base: Option<nat>)
    requires k <= |ns| && (base.Some? ==> base.value < |ns| && Candidate(ns[base.value], q))
    ensures var r := Find(ns, q, k, base);
            && (r.Some? ==> Candidate(ns[r.value], q))
            && (base.Some? ==> r.Some?)
            && (r.None? ==> forall j :: k <= j < |ns| ==> !Candidate(ns[j], q))
            && ((exists j :: k <= j < |ns| && ns[j].peer == q.peer && Exact(ns[j], q)) ==>
                r.Some? && Exact(ns[r.value], q))
    decreases |ns| - k
  {
    if k < |ns| {
      if ns[k].peer != q.peer {
        FindSpec(ns, q, k + 1, base);
      } else if !Exact(ns[k], q) {
        FindSpec(ns, q, k + 1, if Base(ns[k], q) then Some(k) else base);
      }
    }
  }

  // ---------------------------------------------------------------------
  // The table as a sequence of names
  // ---------------------------------------------------------------------

  /** A new address, or a session for an address without one. */
  function Added<T>(ns: seq<Name<T>>, q: Name<T>): seq<Name<T>> {
    match Find(ns, q, 0, None)
    case None => ns + [q.(used := false)]
    case Some(i) => if ns[i].sid == 0 then ns[i := ns[i].(sid := q.sid, ats := q.ats)] else ns
  }

  /** What becomes of an address when one of the same peer is destroyed. */
  function Swept<T>(n: Name<T>, q: Name<T>): Option<Name<T>> {
    if n.peer != q.peer then Some(n)
    else if q.sid == 0 && SameAddr(n, q) then None
    else if n.sid != q.sid then Some(n)
    else if n.addr == [] then None
    else Some(n.(sid := 0))
  }

  function SweptAll<T>(ns: seq<Name<T>>, q: Name<T>): seq<Name<T>> {
    if ns == [] then [] else
      var k := |ns| - 1;
      SweptAll(ns[..k], q) + (match Swept(ns[k], q) case None => [] case Some(n) => [n])
  }

  /** The destruction of one address hits another: it is the same, or has the same session (even none). */
  predicate Hit<T>(n: Name<T>, q: Name<T>) {
    n.peer == q.peer && ((q.sid == 0 && SameAddr(n, q)) || n.sid == q.sid)
  }

  /** Which of the addresses left after a sweep are active: those hit no longer are. */
  function SweptFlags<T>(ns: seq<Name<T>>, fs: seq<bool>, q: Name<T>): seq<bool>
    requires |ns| == |fs|
  {
    if ns == [] then [] else
      var k := |ns| - 1;
      SweptFlags(ns[..k], fs[..k], q) + if Swept(ns[k], q) == None then [] else [fs[k] && !Hit(ns[k], q)]
  }

  /** The table is swept if it holds the address with the session named. */
  function Destroyed<T>(ns: seq<Name<T>>, q: Name<T>): seq<Name<T>> {
    match Find(ns, q, 0, None)
    case None => ns
    case Some(i) => if ns[i].sid != q.sid then ns else SweptAll(ns, q)
  }

  /** The address that a lookup with a session means. */
  function Lookup<T>(ns: seq<Name<T>>, q: Name<T>): (r: Option<nat>)
    ensures r.Some? ==> r.value < |ns|
  {
    match Find(ns, q, 0, None)
    case None => None
    case Some(i) => if ns[i].sid != q.sid then None else Some(i)
  }

  /** An address is marked used or unused: refused if it is unknown, or if nothing would change. */
  function Marked<T>(ns: seq<Name<T>>, q: Name<T>, inUse: bool): Option<seq<Name<T>>> {
    match Lookup(ns, q)
    case None => None
    case Some(i) => if ns[i].used == inUse then None else Some(ns[i := ns[i].(used := inUse)])
  }

  /** A lookup succeeds exactly if some address of the peer matches with the session asked for. */
  lemma LookupIff<T>(ns: seq<Name<T>>, q: Name<T>)
    ensures Lookup(ns, q).Some? <==> exists j :: 0 <= j < |ns| && ns[j].peer == q.peer && Exact(ns[j], q)
    ensures Lookup(ns, q).Some? ==> var n := ns[Lookup(ns, q).value]; n.peer == q.peer && Exact(n, q)
  {
    FindSpec(ns, q, 0, None);
  }

  lemma {:induction false} SweptMember<T>(ns: seq<Name<T>>, q: Name<T>, n: Name<T>)
    ensures n in SweptAll(ns, q) <==> exists m :: m in ns && Swept(m, q) == Some(n)
  {
    if ns != [] {
      var k := |ns| - 1;
      SweptMember(ns[..k], q, n);
      assert ns == ns[..k] + [ns[k]];
    }
  }

  // ---------------------------------------------------------------------
  // Equal shares
  // ---------------------------------------------------------------------

  /** A share of a 64-bit quota, stored in 32 bits. */
  function Share(quota: nat, count: nat): nat
    requires count > 0
  {
    (quota / count) % 0x1_0000_0000
  }

  ghost function Actives<T>(t: seq<Address<T>>): nat {
    if t == [] then 0 else Actives(t[..|t| - 1]) + if t[|t| - 1].active then 1 else 0
  }

  /** The bandwidth assigned over all active addresses. */
  ghost function TotalIn<T>(t: seq<Address<T>>): nat {
    if t == [] then 0 else TotalIn(t[..|t| - 1]) + if t[|t| - 1].active then t[|t| - 1].bwIn else 0
  }

  ghost function TotalOut<T>(t: seq<Address<T>>): nat {
    if t == [] then 0 else TotalOut(t[..|t| - 1]) + if t[|t| - 1].active then t[|t| - 1].bwOut else 0
  }

  /** Every active address holds its share. */
  ghost predicate Shared<T>(t: seq<Address<T>>, count: nat, quotaIn: nat, quotaOut: nat) {
    forall i :: 0 <= i < |t| && t[i].active ==>
      count > 0 && t[i].bwIn == Share(quotaIn, count) && t[i].bwOut == Share(quotaOut, count)
  }

  lemma {:induction false} Totals<T>(t: seq<Address<T>>, shareIn: nat, shareOut: nat)
    requires forall i :: 0 <= i < |t| && t[i].active ==> t[i].bwIn == shareIn && t[i].bwOut == shareOut
    ensures TotalIn(t) == Actives(t) * shareIn && TotalOut(t) == Actives(t) * shareOut
  {
    if t != [] {
      var n := Actives(t[..|t| - 1]);
      Totals(t[..|t| - 1], shareIn, shareOut);
      assert (n + 1) * shareIn == n * shareIn + shareIn && (n + 1) * shareOut == n * shareOut + shareOut;
    }
  }

  lemma ShareTimes(quota: nat, count: nat)
    requires count > 0
    ensures count * Share(quota, count) <= quota
  {
    var q := quota / count;
    assert q % 0x1_0000_0000 <= q;
    assert count * q <= quota;
    assert count * (q % 0x1_0000_0000) <= count * q;
  }

  /** Shares leave less than one unit for each address exactly if a share fits into 32 bits. */
  lemma ShareUsedIff(quota: nat, count: nat)
    requires count > 0
    ensures count * Share(quota, count) + count > quota <==> quota < count * 0x1_0000_0000
  {
    var q, r := quota / count, quota % count;
    assert quota == count * q + r;
    if q < 0x1_0000_0000 {
      assert Share(quota, count) == q;
      assert count * q <= count * 0xFFFF_FFFF;
    } else {
      var w := q % 0x1_0000_0000;
      assert w + 0x1_0000_0000 <= q;
      assert count * (w + 0x1_0000_0000) <= count * q;
      assert count * (w + 0x1_0000_0000) == count * w + count * 0x1_0000_0000;
    }
  }

  /** The quota is never exceeded, in either direction. */
  lemma WithinQuota<T>(t: seq<Address<T>>, quotaIn: nat, quotaOut: nat)
    requires Shared(t, Actives(t), quotaIn, quotaOut)
    ensures TotalIn(t) <= quotaIn && TotalOut(t) <= quotaOut
  {
    if Actives(t) > 0 {
      Totals(t, Share(quotaIn, Actives(t)), Share(quotaOut, Actives(t)));
      ShareTimes(quotaIn, Actives(t));
      ShareTimes(quotaOut, Actives(t));
    } else {
      NoneActive(t);
    }
  }

  lemma {:induction false} NoneActive<T>(t: seq<Address<T>>)
    requires Actives(t) == 0
    ensures TotalIn(t) == 0 && TotalOut(t) == 0 && forall i :: 0 <= i < |t| ==> !t[i].active
  {
    if t != [] {
      NoneActive(t[..|t| - 1]);
    }
  }

  lemma {:induction false} ActivesAppend<T>(a: seq<Address<T>>, b: seq<Address<T>>)
    ensures Actives(a + b) == Actives(a) + Actives(b)
  {
    if b == [] {
      assert a + b == a;
    } else {
      var m := |b| - 1;
      assert (a + b)[..|a| + m] == a + b[..m];
      ActivesAppend(a, b[..m]);
    }
  }

  lemma ActivesAt<T>(t: seq<Address<T>>, i: nat)
    requires i < |t|
    ensures Actives(t) == Actives(t[..i] + t[i + 1..]) + if t[i].active then 1 else 0
    ensures forall x :: Actives(t[i := x]) == Actives(t[..i] + t[i + 1..]) + if x.active then 1 else 0
  {
    var a, b := t[..i], t[i + 1..];
    ActivesAppend(a, b);
    forall x ensures Actives(t[i := x]) == Actives(a + b) + if x.active then 1 else 0 {
      assert t[i := x] == a + [x] + b;
      ActivesAppend(a + [x], b);
      ActivesAppend(a, [x]);
      assert [x][..0] == [];
    }
    assert t[i := t[i]] == t;
  }

  ghost function Names<T>(t: seq<Address<T>>): (ns: seq<Name<T>>)
    ensures |ns| == |t| && forall i :: 0 <= i < |t| ==> ns[i] == t[i].name
  {
    if t == [] then [] else Names(t[..|t| - 1]) + [t[|t| - 1].name]
  }

  ghost function Flags<T>(t: seq<Address<T>>): (fs: seq<bool>)
    ensures |fs| == |t| && forall i :: 0 <= i < |t| ==> fs[i] == t[i].active
  {
    if t == [] then [] else Flags(t[..|t| - 1]) + [t[|t| - 1].active]
  }

  // ---------------------------------------------------------------------
  // The table, updated in place
  // ---------------------------------------------------------------------

  class Table<T(==)> {
    const quotaIn: nat
    const quotaOut: nat
    var addresses: seq<Address<T>>
    var activeCount: nat

    ghost predicate Counted()
      reads this
    {
      activeCount == Actives(addresses)
    }

    ghost predicate Valid()
      reads this
    {
      Counted() && Shared(addresses, activeCount, quotaIn, quotaOut)
    }

    constructor (quotaIn: nat, quotaOut: nat)
      ensures Valid() && addresses == [] && this.quotaIn == quotaIn && this.quotaOut == quotaOut
    {
      this.quotaIn, this.quotaOut := quotaIn, quotaOut;
      addresses, activeCount := [], 0;
    }

    /** Find an existing equivalent address, preferably with the same session. */
    method FindAddress(q: Name<T>) returns (r: Option<nat>)
      ensures r == Find(Names(addresses), q, 0, None)
    {
      var base: Option<nat> := None;
      for k := 0 to |addresses|
        invariant base.Some? ==> base.value < |addresses|
        invariant Find(Names(addresses), q, 0, None) == Find(Names(addresses), q, k, base)
      {
        var n := addresses[k].name;
        if n.peer == q.peer {
          if SameAddr(n, q) && n.sid == q.sid {
            return Some(k);
          }
          if q.addr == [] && n.plugin == q.plugin && n.sid == q.sid {
            return Some(k);
          }
          if SameAddr(n, q) && n.sid == 0 {
            base := Some(k);
          }
        }
      }
      return base;
    }

    /** A new address, or a session for a known one. */
    method Add(q: Name<T>, distance: nat, latency: nat)
      requires Valid()
      modifies this
      ensures Valid() && Names(addresses) == Added(old(Names(addresses)), q) && activeCount == old(activeCount)
    {
      hide Actives, Names, Find;
      var found := FindAddress(q);
      match found {
        case None =>
          var a := Address(q.(used := false), false, 0, 0, distance, latency);
          ActivesAppend(addresses, [a]);
          Inactive(a);
          addresses := addresses + [a];
        case Some(i) =>
          if addresses[i].name.sid == 0 {
            Rename(i, addresses[i].name.(sid := q.sid, ats := q.ats));
          }
      }
    }

    method Rename(i: nat, n: Name<T>)
      requires Valid() && i < |addresses|
      modifies this`addresses
      ensures Valid() && addresses == old(addresses)[i := old(addresses)[i].(name := n)]
    {
      hide Actives;
      ActivesAt(addresses, i);
      addresses := addresses[i := addresses[i].(name := n)];
    }

    /** Give every active address its share, and tell who uses it; `sent` are the suggestions made. */
    method Recalculate() returns (sent: seq<Name<T>>)
      requires Counted()
      modifies this`addresses
      ensures Valid() && SameButShares(old(addresses), addresses)
      ensures sent == ActiveNames(addresses)
    {
      hide Actives, ActiveNames;
      sent := [];
      ActiveNamesStep(addresses, 0);
      for k := 0 to |addresses|
        invariant SameButShares(old(addresses), addresses)
        invariant forall i :: 0 <= i < k ==> HasShare(addresses[i])
        invariant sent == ActiveNames(addresses[..k])
        invariant Actives(addresses) == old(Actives(addresses))
      {
        var a := addresses[k];
        ghost var before := addresses;
        if a.active {
          ActivesAt(addresses, k);
          assert activeCount > 0;
          addresses := addresses[k := a.(bwIn := (quotaIn / activeCount) % 0x1_0000_0000,
                                         bwOut := (quotaOut / activeCount) % 0x1_0000_0000)];
          sent := sent + [a.name];
        }
        assert addresses[..k] == before[..k];
        ActiveNamesStep(addresses, k + 1);
      }
      assert addresses[..|addresses|] == addresses;
    }

    /** Transport says whether it uses an address; `ok` is false if the service refuses the message. */
    method SetInUse(q: Name<T>, inUse: bool) returns (ok: bool)
      requires Valid()
      modifies this`addresses
      ensures Valid() && (ok <==> Marked(old(Names(addresses)), q, inUse).Some?)
      ensures Names(addresses) == if ok then Marked(old(Names(addresses)), q, inUse).value else old(Names(addresses))
      ensures Flags(addresses) == old(Flags(addresses))
    {
      hide Actives, Names, Flags, Find;
      var found := FindAddress(q);
      if found.None? || addresses[found.value].name.sid != q.sid {
        return false;
      }
      var i := found.value;
      if addresses[i].name.used == inUse {
        return false;
      }
      Rename(i, addresses[i].name.(used := inUse));
      return true;
    }

    // ---- addresses and sessions go

    /** Take an address out of the table; `ret` asks for a recalculation. */
    method DestroyAddress(i: nat) returns (ret: bool)
      requires Counted() && i < |addresses|
      modifies this
      ensures Counted() && addresses == old(addresses)[..i] + old(addresses)[i + 1..]
      ensures ret == old(addresses)[i].active && activeCount == old(activeCount) - if ret then 1 else 0
    {
      hide Actives;
      ActivesAt(addresses, i);
      ret := addresses[i].active;
      if ret {
        activeCount := activeCount - 1;
      }
      addresses := addresses[..i] + addresses[i + 1..];
    }

    /** The session of an address died. */
    method EndSession(i: nat) returns (sent: seq<Name<T>>)
      requires Valid() && i < |addresses|
      modifies this
      ensures Valid() && |addresses| == |old(addresses)| && !addresses[i].active
      ensures Names(addresses) == old(Names(addresses))[i := old(addresses)[i].name.(sid := 0)]
      ensures Flags(addresses) == old(Flags(addresses))[i := false]
      ensures forall n :: n in sent ==> exists j :: 0 <= j < |addresses| && j != i && addresses[j].name == n
      ensures sent == if old(addresses)[i].active then ActiveNames(addresses) else []
    {
      hide Actives, Names, Flags, ActiveNames;
      Rename(i, addresses[i].name.(sid := 0));
      sent := [];
      if addresses[i].active {
        ActivesAt(addresses, i);
        addresses := addresses[i := addresses[i].(active := false)];
        activeCount := activeCount - 1;
        sent := Recalculate();
        forall n | n in sent ensures exists j :: 0 <= j < |addresses| && j != i && addresses[j].name == n {
          ActiveNamesIn(addresses, n);
        }
      }
    }

    /** An address goes altogether. */
    method RemoveWhole(i: nat) returns (sent: seq<Name<T>>)
      requires Valid() && i < |addresses|
      modifies this
      ensures Valid()
      ensures Names(addresses) == old(Names(addresses))[..i] + old(Names(addresses))[i + 1..]
      ensures Flags(addresses) == old(Flags(addresses))[..i] + old(Flags(addresses))[i + 1..]
      ensures forall n :: n in sent ==> n in old(Names(addresses))
      ensures sent == if old(addresses)[i].active then ActiveNames(addresses) else []
    {
      hide Actives, Names, Flags, ActiveNames;
      sent := [];
      var ret := DestroyAddress(i);
      if ret {
        sent := Recalculate();
        forall n | n in sent ensures n in old(Names(addresses)) {
          ActiveNamesIn(addresses, n);
          var j :| 0 <= j < |addresses| && addresses[j].active && addresses[j].name == n;
          assert old(Names(addresses))[if j < i then j else j + 1] == n;
        }
      }
    }

    /** What one address makes of the destruction of an address; addresses of other peers are not looked at. */
    method SweepOne(i: nat, q: Name<T>) returns (gone: bool, sent: seq<Name<T>>)
      requires Valid() && i < |addresses|
      modifies this
      ensures Valid() && (gone <==> Swept(old(addresses)[i].name, q) == None)
      ensures var ns := old(Names(addresses));
              Names(addresses) == match Swept(ns[i], q)
                case None => ns[..i] + ns[i + 1..]
                case Some(n) => ns[i := n]
      ensures var n, fs := old(addresses)[i].name, old(Flags(addresses));
              Flags(addresses) == if Swept(n, q) == None then fs[..i] + fs[i + 1..] else fs[i := fs[i] && !Hit(n, q)]
      ensures forall n :: n in sent ==> n in old(Names(addresses))
      // who keeps an active address is told of its new share
      ensures sent == if old(addresses)[i].active && Hit(old(addresses)[i].name, q) then ActiveNames(addresses) else []
    {
      hide Actives, Names, Flags, ActiveNames;
      var n := addresses[i].name;
      sent := [];
      if n.peer != q.peer {
        return false, sent;
      }
      if q.sid == 0 && SameAddr(n, q) {
        sent := RemoveWhole(i);
        return true, sent;
      }
      if n.sid != q.sid {
        return false, sent;
      }
      gone, sent := DropSession(i);
    }

    /** The session of an address goes, and with it an inbound address. */
    method DropSession(i: nat) returns (gone: bool, sent: seq<Name<T>>)
      requires Valid() && i < |addresses|
      modifies this
      ensures Valid() && (gone <==> old(addresses)[i].name.addr == [])
      ensures var n, ns := old(addresses)[i].name, old(Names(addresses));
              Names(addresses) == if gone then ns[..i] + ns[i + 1..] else ns[i := n.(sid := 0)]
      ensures var fs := old(Flags(addresses));
              Flags(addresses) == if gone then fs[..i] + fs[i + 1..] else fs[i := false]
      ensures forall n :: n in sent ==> n in old(Names(addresses))
      ensures sent == if old(addresses)[i].active then ActiveNames(addresses) else []
    {
      hide Actives, Names, Flags, ActiveNames;
      sent := EndSession(i);
      forall m | m in sent ensures m in old(Names(addresses)) {
        var j :| 0 <= j < |addresses| && j != i && addresses[j].name == m;
        assert old(Names(addresses))[j] == m;
      }
      gone := addresses[i].name.addr == [];
      if gone {
        ActiveNamesWithout(addresses, i);
        var ret := DestroyAddress(i);
      }
    }

    /** An address is destroyed: with a session only the session goes, without one the whole address. */
    method Destroy(q: Name<T>) returns (sent: seq<Name<T>>)
      requires Valid()
      modifies this
      ensures Valid() && Names(addresses) == Destroyed(old(Names(addresses)), q)
      ensures Flags(addresses) == (var f := Find(old(Names(addresses)), q, 0, None);
                if f.Some? && old(addresses)[f.value].name.sid == q.sid
                then SweptFlags(old(Names(addresses)), old(Flags(addresses)), q) else old(Flags(addresses)))
      ensures forall n :: n in sent ==> n in old(Names(addresses)) || n in Names(addresses)
    {
      hide Actives, Names, Flags, Find, Swept, Shared, Hit;
      var found := FindAddress(q);
      sent := [];
      if found.None? || addresses[found.value].name.sid != q.sid {
        return;
      }
      sent := Sweep(q);
    }

    /** Every address of the peer is looked at. */
    method Sweep(q: Name<T>) returns (sent: seq<Name<T>>)
      requires Valid()
      modifies this
      ensures Valid() && Names(addresses) == SweptAll(old(Names(addresses)), q)
      ensures Flags(addresses) == SweptFlags(old(Names(addresses)), old(Flags(addresses)), q)
      ensures forall n :: n in sent ==> n in old(Names(addresses)) || n in Names(addresses)
    {
      hide Actives, Names, Flags, Swept, Shared, Hit, SweptAll, SweptFlags, ActiveNames;
      sent := [];
      ghost var ns, fs := Names(addresses), Flags(addresses);
      var i := 0;
      ghost var k := 0;
      NothingSwept(ns, fs, q);
      while i < |addresses|
        invariant Valid() && i <= |addresses| && k <= |ns| && |addresses| - i == |ns| - k
        invariant Names(addresses) == SweptAll(ns[..k], q) + ns[k..] && i == |SweptAll(ns[..k], q)|
        invariant Flags(addresses) == SweptFlags(ns[..k], fs[..k], q) + fs[k..]
        invariant i == |SweptFlags(ns[..k], fs[..k], q)|
        invariant forall n :: n in sent ==> n in ns || n in SweptAll(ns, q)
        decreases |addresses| - i
      {
        ghost var before, flags := Names(addresses), Flags(addresses);
        var gone, suggested := SweepOne(i, q);
        SweepProgress(ns, q, k, before, i, Names(addresses));
        FlagsProgress(ns, fs, q, k, flags, i, Flags(addresses));
        SweptPrefix(ns, q, k);
        sent := sent + suggested;
        if !gone {
          i := i + 1;
        }
        k := k + 1;
      }
      assert ns[..|ns|] == ns && ns[|ns|..] == [] && fs[..|fs|] == fs && fs[|fs|..] == [];
    }

    /** All addresses go; none is left active. */
    method DestroyAll()
      requires Valid()
      modifies this
      ensures Valid() && addresses == [] && activeCount == 0
    {
      while addresses != []
        invariant Counted()
        decreases |addresses|
      {
        var _ := DestroyAddress(0);
      }
      assert activeCount == 0;
    }

    // ---- a peer is to be contacted

    /** Prefer the address considered now over the best one so far. */
    predicate Prefer(best: Address<T>, a: Address<T>, tcp: nat) {
      if best.name.plugin == tcp && a.name.plugin == tcp && (best.name.addr == [] || a.name.addr == [])
      then best.name.addr != []
      else (best.bwIn == 0 && a.bwIn > 0) || best.distance > a.distance || best.latency > a.latency
    }

    /** An address of the peer that was not suggested lately. */
    predicate Candidate(p: Peer, blocked: nat -> bool, k: nat)
      reads this
    {
      k < |addresses| && addresses[k].name.peer == p && !blocked(k)
    }

    /** An address is no better than another: an inbound TCP address beats outbound ones; apart from that, it is not
        nearer, not faster, and not the only one of the two that is in use. */
    ghost predicate NoBetter(a: Address<T>, best: Address<T>, tcp: nat) {
      if best.name.plugin == a.name.plugin == tcp && best.name.addr == [] then true
      else if best.name.plugin == a.name.plugin == tcp && a.name.addr == [] then false
      else best.distance <= a.distance && best.latency <= a.latency && (best.bwIn == 0 ==> a.bwIn == 0)
    }

    /** A candidate that no later one beats, and that is the first one or beats an earlier one. */
    ghost predicate Chosen(p: Peer, tcp: nat, blocked: nat -> bool, i: nat)
      reads this
    {
      && Candidate(p, blocked, i)
      && (forall k :: i < k < |addresses| && Candidate(p, blocked, k) ==> NoBetter(addresses[k], addresses[i], tcp))
      && ((forall k: nat :: k < i ==> !Candidate(p, blocked, k)) ||
          exists k: nat :: k < i && Candidate(p, blocked, k) && !NoBetter(addresses[i], addresses[k], tcp))
    }

    /** The address to suggest for a peer; addresses that were suggested lately are blocked. */
    method Choose(p: Peer, tcp: nat, blocked: nat -> bool) returns (best: Option<nat>)
      ensures best.Some? ==> Chosen(p, tcp, blocked, best.value)
      ensures best.None? ==> forall k: nat :: !Candidate(p, blocked, k)
    {
      best := None;
      for k := 0 to |addresses|
        invariant best.None? ==> forall j: nat :: j < k ==> !Candidate(p, blocked, j)
        invariant best.Some? ==>
            && best.value < k && Candidate(p, blocked, best.value)
            && (forall j :: best.value < j < k && Candidate(p, blocked, j) ==>
                  NoBetter(addresses[j], addresses[best.value], tcp))
            && ((forall j: nat :: j < best.value ==> !Candidate(p, blocked, j)) ||
                exists j: nat :: && j < best.value && Candidate(p, blocked, j)
                                 && !NoBetter(addresses[best.value], addresses[j], tcp))
      {
        if addresses[k].name.peer == p && !blocked(k) {
          if best.None? || Prefer(addresses[best.value], addresses[k], tcp) {
            best := Some(k);
          }
        }
      }
    }

    /** Suggest an address for a peer, which becomes active. */
    method Request(p: Peer, tcp: nat, blocked: nat -> bool) returns (sent: seq<Name<T>>)
      requires Valid()
      modifies this
      ensures Valid() && Names(addresses) == old(Names(addresses))
      ensures forall n :: n in sent ==> n in Names(addresses)
      ensures sent == [] ==> addresses == old(addresses) && forall k: nat :: !Candidate(p, blocked, k)
      ensures sent != [] ==>
                exists i :: && 0 <= i < |addresses| && old(Chosen(p, tcp, blocked, i)) && addresses[i].name in sent
                            && Flags(addresses) == old(Flags(addresses))[i := true]
                            && sent == if old(addresses)[i].active then [addresses[i].name] else ActiveNames(addresses)
    {
      hide Actives, Names, Flags, ActiveNames, NoBetter;
      var best := Choose(p, tcp, blocked);
      if best.None? {
        return [];
      }
      var i := best.value;
      assert old(Chosen(p, tcp, blocked, i));
      if addresses[i].active {
        assert addresses[i].name == Names(addresses)[i];
        assert Flags(addresses) == old(Flags(addresses))[i := true];
        return [addresses[i].name];
      }
      ActivesAt(addresses, i);
      addresses := addresses[i := addresses[i].(active := true)];
      activeCount := activeCount + 1;
      sent := Recalculate();
      forall n | n in sent ensures n in Names(addresses) {
        ActiveNamesIn(addresses, n);
      }
      ActiveNamesHave(addresses, i);
      assert Flags(addresses) == old(Flags(addresses))[i := true];
    }

    /** The bandwidth assigned over all active addresses is within the quota, in both directions. */
    lemma QuotaKept()
      requires Valid()
      ensures TotalIn(addresses) <= quotaIn && TotalOut(addresses) <= quotaOut
    {
      WithinQuota(addresses, quotaIn, quotaOut);
    }

    /** And the quota is used up, but for less than one unit for each active address, exactly if the shares, which are
        stored in 32 bits, fit. */
    lemma QuotaUsedIff()
      requires Valid() && activeCount > 0
      ensures TotalIn(addresses) + activeCount > quotaIn <==> quotaIn < activeCount * 0x1_0000_0000
      ensures TotalOut(addresses) + activeCount > quotaOut <==> quotaOut < activeCount * 0x1_0000_0000
    {
      Totals(addresses, Share(quotaIn, activeCount), Share(quotaOut, activeCount));
      ShareUsedIff(quotaIn, activeCount);
      ShareUsedIff(quotaOut, activeCount);
    }

    ghost predicate HasShare(a: Address<T>)
      reads this`activeCount
    {
      a.active ==> activeCount > 0 && a.bwIn == Share(quotaIn, activeCount) && a.bwOut == Share(quotaOut, activeCount)
    }
  }

  /** The names of the active addresses, in order. */
  ghost function ActiveNames<T>(t: seq<Address<T>>): seq<Name<T>> {
    if t == [] then [] else ActiveNames(t[..|t| - 1]) + if t[|t| - 1].active then [t[|t| - 1].name] else []
  }

  lemma ActiveNamesStep<T>(t: seq<Address<T>>, k: nat)
    requires k <= |t|
    ensures k == 0 ==> ActiveNames(t[..k]) == []
    ensures k > 0 ==> ActiveNames(t[..k]) == ActiveNames(t[..k - 1]) + if t[k - 1].active then [t[k - 1].name] else []
  {
    if k > 0 {
      assert t[..k][..k - 1] == t[..k - 1];
    }
  }

  /** An address that is not active has no part in it. */
  lemma {:induction false} ActiveNamesWithout<T>(t: seq<Address<T>>, i: nat)
    requires i < |t| && !t[i].active
    ensures ActiveNames(t[..i] + t[i + 1..]) == ActiveNames(t)
  {
    var m := |t| - 1;
    if i == m {
      assert t[..i] + t[i + 1..] == t[..m];
    } else {
      ActiveNamesWithout(t[..m], i);
      assert (t[..i] + t[i + 1..])[..m - 1] == t[..m][..i] + t[..m][i + 1..];
    }
  }

  lemma {:induction false} ActiveNamesIn<T>(t: seq<Address<T>>, n: Name<T>)
    requires n in ActiveNames(t)
    ensures exists i :: 0 <= i < |t| && t[i].active && t[i].name == n
  {
    var m := |t| - 1;
    if n in ActiveNames(t[..m]) {
      ActiveNamesIn(t[..m], n);
      var i :| 0 <= i < m && t[..m][i].active && t[..m][i].name == n;
      assert t[i].active && t[i].name == n;
    } else {
      assert t[m].active && t[m].name == n;
    }
  }

  lemma {:induction false} ActiveNamesHave<T>(t: seq<Address<T>>, i: nat)
    requires i < |t| && t[i].active
    ensures t[i].name in ActiveNames(t)
  {
    if i < |t| - 1 {
      ActiveNamesHave(t[..|t| - 1], i);
    }
  }

  lemma Inactive<T>(a: Address<T>)
    ensures Actives([a]) == if a.active then 1 else 0
  {
    assert [a][..0] == [];
  }

  lemma SweptStep<T>(ns: seq<Name<T>>, q: Name<T>, k: nat)
    requires k < |ns|
    ensures SweptAll(ns[..0], q) == []
    ensures SweptAll(ns[..k + 1], q) ==
              SweptAll(ns[..k], q) + (match Swept(ns[k], q) case None => [] case Some(n) => [n])
  {
    assert ns[..k + 1][..k] == ns[..k];
  }

  lemma FlagsProgress<T>(ns: seq<Name<T>>, fs: seq<bool>, q: Name<T>, k: nat, cur: seq<bool>, i: nat, next: seq<bool>)
    requires |ns| == |fs| && k < |ns|
    requires cur == SweptFlags(ns[..k], fs[..k], q) + fs[k..] && i == |SweptFlags(ns[..k], fs[..k], q)|
    requires next == if Swept(ns[k], q) == None then cur[..i] + cur[i + 1..] else cur[i := cur[i] && !Hit(ns[k], q)]
    ensures next == SweptFlags(ns[..k + 1], fs[..k + 1], q) + fs[k + 1..]
    ensures |SweptFlags(ns[..k + 1], fs[..k + 1], q)| == i + if Swept(ns[k], q) == None then 0 else 1
  {
    hide Swept, Hit;
    assert ns[..k + 1][..k] == ns[..k] && fs[..k + 1][..k] == fs[..k];
    assert cur[..i] == SweptFlags(ns[..k], fs[..k], q) && cur[i + 1..] == fs[k + 1..] && cur[i] == fs[k];
  }

  lemma NothingSwept<T>(ns: seq<Name<T>>, fs: seq<bool>, q: Name<T>)
    requires |ns| == |fs|
    ensures SweptAll(ns[..0], q) == [] && SweptFlags(ns[..0], fs[..0], q) == []
  {}

  lemma SweptPrefix<T>(ns: seq<Name<T>>, q: Name<T>, k: nat)
    requires k <= |ns|
    ensures forall n :: n in SweptAll(ns[..k], q) ==> n in SweptAll(ns, q)
  {
    hide Swept, SweptAll;
    forall n | n in SweptAll(ns[..k], q) ensures n in SweptAll(ns, q) {
      SweptMember(ns[..k], q, n);
      SweptMember(ns, q, n);
    }
  }

  lemma SweepProgress<T>(ns: seq<Name<T>>, q: Name<T>, k: nat, cur: seq<Name<T>>, i: nat, next: seq<Name<T>>)
    requires k < |ns| && cur == SweptAll(ns[..k], q) + ns[k..] && i == |SweptAll(ns[..k], q)|
    requires next == match Swept(cur[i], q) case None => cur[..i] + cur[i + 1..] case Some(n) => cur[i := n]
    ensures cur[i] == ns[k] && next == SweptAll(ns[..k + 1], q) + ns[k + 1..]
    ensures |SweptAll(ns[..k + 1], q)| == i + if Swept(ns[k], q) == None then 0 else 1
  {
    hide Swept, SweptAll;
    SweptStep(ns, q, k);
    assert cur[..i] == SweptAll(ns[..k], q) && cur[i + 1..] == ns[k + 1..];
  }

  /** Only the assigned bandwidth may differ. */
  ghost predicate SameButShares<T>(a: seq<Address<T>>, b: seq<Address<T>>) {
    |a| == |b| && forall i :: 0 <= i < |a| ==> b[i] == a[i].(bwIn := b[i].bwIn, bwOut := b[i].bwOut)
  }
}
