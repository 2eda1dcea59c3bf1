/**
 The reference-counted type map (gnunet-service-core_typemap.c): which message
 types this peer's clients handle, and matching a map against a list of types.
 A type map is modelled as the set of types whose bit is set.
 */
module TypeMap {
  import opened CoreTypes

  /** Some listed type is in the map; an empty list matches every map; no map matches nothing. */
  ghost predicate Matches(tmap: Option<set<MsgType>>, types: seq<MsgType>) {
    tmap.Some? && (types == [] || exists t :: t in types && t in tmap.value)
  }

  method TestMatch(tmap: Option<set<MsgType>>, types: seq<MsgType>) returns (b: bool)
    ensures b == Matches(tmap, types)
  {
    if tmap == None {
      return false;
    }
    if |types| == 0 {
      return true;
    }
    for i := 0 to |types|
      invariant forall k :: 0 <= k < i ==> types[k] !in tmap.value
    {
      if types[i] in tmap.value {
        return true;
      }
    }
    return false;
  }

  /** A fresh copy of the map with more types in it. */
  method Extend(tmap: Option<set<MsgType>>, types: seq<MsgType>) returns (r: set<MsgType>)
    ensures forall t :: t in r <==> t in types || (tmap.Some? && t in tmap.value)
  {
    r := if tmap == None then {} else tmap.value;
    for i := 0 to |types|
      invariant forall t :: t in r <==> t in types[..i] || (tmap.Some? && t in tmap.value)
    {
      r := r + {types[i]};
    }
    assert types[..|types|] == types;
  }

  // ---------------------------------------------------------------------
  // One type: how often it is registered, its 8-bit counter and its bit
  // ---------------------------------------------------------------------

  datatype Slot = Slot(count: nat, counter: nat, bit: bool)

  const Unused := Slot(0, 0, false)

  datatype Op = Register | Withdraw

  /** One registration or withdrawal; a withdrawal needs a registration. */
  function Apply(s: Slot, op: Op): Slot {
    match op
    case Register => Slot(s.count + 1, (s.counter + 1) % 256, if s.counter == 0 then true else s.bit)
    case Withdraw =>
      if s.count == 0 then s else
        var c := (s.counter + 255) % 256;
        Slot(s.count - 1, c, if c == 0 then false else s.bit)
  }

  function Run(ops: seq<Op>): Slot {
    if ops == [] then Unused else Apply(Run(ops[..|ops| - 1]), ops[|ops| - 1])
  }

  /** The bit tells whether the type is registered. */
  predicate BitExact(s: Slot) {
    s.bit <==> s.count > 0
  }

  /** A withdrawal that the 8-bit counter takes for the last one although it is not. */
  predicate Mistaken(s: Slot, op: Op) {
    op == Withdraw && s.count > 1 && s.count % 256 == 1
  }

  /** The counter is the number of registrations, modulo its width. */
  predicate Wraps(s: Slot) {
    s.counter == s.count % 256
  }

  lemma WrapsStep(s: Slot, op: Op)
    requires Wraps(s)
    ensures Wraps(Apply(s, op))
    ensures BitExact(s) ==> (BitExact(Apply(s, op)) <==> !Mistaken(s, op))
  {
    if s.count > 0 {
      Mod256(s.count - 1);
    }
    Mod256(s.count);
  }

  lemma Mod256(n: nat)
    ensures (n + 1) % 256 == (n % 256 + 1) % 256
    ensures n % 256 == ((n + 1) % 256 + 255) % 256
  {}

  lemma {:induction false} CounterWraps(ops: seq<Op>)
    ensures Wraps(Run(ops))
  {
    if ops != [] {
      CounterWraps(ops[..|ops| - 1]);
      WrapsStep(Run(ops[..|ops| - 1]), ops[|ops| - 1]);
    }
  }

  ghost predicate AlwaysExact(ops: seq<Op>) {
    forall k :: 0 <= k <= |ops| ==> BitExact(Run(ops[..k]))
  }

  ghost predicate NeverMistaken(ops: seq<Op>) {
    forall k :: 0 <= k < |ops| ==> !Mistaken(Run(ops[..k]), ops[k])
  }

  lemma SnocExact(ops: seq<Op>, m: nat)
    requires |ops| == m + 1
    ensures AlwaysExact(ops) <==> AlwaysExact(ops[..m]) && BitExact(Run(ops))
  {
    hide Run, BitExact;
    assert ops[..m + 1] == ops;
    forall k | 0 <= k <= m ensures ops[..m][..k] == ops[..k] {}
    if AlwaysExact(ops) {
      forall k | 0 <= k <= m ensures BitExact(Run(ops[..m][..k])) { assert BitExact(Run(ops[..k])); }
    }
    if AlwaysExact(ops[..m]) && BitExact(Run(ops)) {
      forall k | 0 <= k <= m + 1 ensures BitExact(Run(ops[..k])) { assert k <= m ==> BitExact(Run(ops[..m][..k])); }
    }
  }

  lemma SnocMistaken(ops: seq<Op>, m: nat)
    requires |ops| == m + 1
    ensures NeverMistaken(ops) <==> NeverMistaken(ops[..m]) && !Mistaken(Run(ops[..m]), ops[m])
  {
    hide Run, Mistaken;
    forall k | 0 <= k <= m ensures ops[..m][..k] == ops[..k] {}
    if NeverMistaken(ops) {
      forall k | 0 <= k < m ensures !Mistaken(Run(ops[..m][..k]), ops[k]) { assert !Mistaken(Run(ops[..k]), ops[k]); }
    }
    if NeverMistaken(ops[..m]) && !Mistaken(Run(ops[..m]), ops[m]) {
      forall k | 0 <= k <= m ensures !Mistaken(Run(ops[..k]), ops[k]) {
        assert k < m ==> !Mistaken(Run(ops[..m][..k]), ops[k]);
      }
    }
  }

  /** Exactly when the bit is right throughout a run: no withdrawal happens at 256k+1 registrations, k >= 1. */
  lemma {:induction false} BitExactIff(ops: seq<Op>)
    ensures AlwaysExact(ops) <==> NeverMistaken(ops)
  {
    if ops == [] {
      assert ops[..0] == [];
    } else {
      var m := |ops| - 1;
      BitExactIff(ops[..m]);
      SnocExact(ops, m);
      SnocMistaken(ops, m);
      if AlwaysExact(ops[..m]) {
        assert ops[..m][..m] == ops[..m];
        assert BitExact(Run(ops[..m]));
        CounterWraps(ops[..m]);
        WrapsStep(Run(ops[..m]), ops[m]);
      }
    }
  }

  /** In particular when the type is never registered more than 256 times at once. */
  lemma AtMost256(ops: seq<Op>, k: nat)
    requires k <= |ops|
    requires forall j :: 0 <= j <= |ops| ==> Run(ops[..j]).count <= 256
    ensures BitExact(Run(ops[..k]))
  {
    hide Run, BitExact;
    forall j | 0 <= j < |ops| ensures !Mistaken(Run(ops[..j]), ops[j]) {
      assert Run(ops[..j]).count <= 256;
    }
    BitExactIff(ops);
  }

  lemma {:induction false} ManyRegistrations(n: nat)
    ensures var s := Run(seq(n, _ => Register)); s.count == n && s.counter == n % 256 && (s.bit <==> n > 0)
  {
    var ops := seq(n, _ => Register);
    if n > 0 {
      assert ops[..n - 1] == seq(n - 1, _ => Register);
      ManyRegistrations(n - 1);
    }
  }

  /** 257 registrations and one withdrawal: the bit is cleared while 256 registrations remain. */
  lemma WrapExample()
    ensures var s := Run(seq(257, _ => Register) + [Withdraw]); s.count == 256 && !s.bit
  {
    var ops := seq(257, _ => Register);
    ManyRegistrations(257);
    assert (ops + [Withdraw])[..257] == ops;
  }

  // ---------------------------------------------------------------------
  // Our own type map, updated in place
  // ---------------------------------------------------------------------

  newtype Byte = x: int | 0 <= x < 256

  /** What is kept of every type; exact as long as it was never registered more than 256 times at once. */
  ghost predicate SlotOk(s: Slot, within: bool) {
    Wraps(s) && (within ==> s.count <= 256 && BitExact(s))
  }

  lemma SlotStep(s: Slot, op: Op, within: bool)
    requires SlotOk(s, within) && (op == Withdraw ==> s.count > 0)
    ensures SlotOk(Apply(s, op), within && Apply(s, op).count <= 256)
    ensures op == Withdraw ==> SlotOk(Apply(s, op), within)
  {
    WrapsStep(s, op);
  }

  class OwnTypes {
    const counters: array<Byte>
    var bits: set<MsgType>
    ghost var registered: multiset<MsgType>
    ghost var within: bool     // no type was ever registered more than 256 times at once

    ghost function SlotOf(t: MsgType): Slot
      reads this, counters
      requires counters.Length == 65536
    {
      Slot(registered[t], counters[t] as int, t in bits)
    }

    ghost predicate Valid()
      reads this, counters
    {
      && counters.Length == 65536
      && (forall t: MsgType :: SlotOk(SlotOf(t), within))
    }

    constructor ()
      ensures Valid() && fresh(counters) && bits == {} && registered == multiset{} && within
    {
      counters := new Byte[65536](_ => 0);
      bits, registered, within := {}, multiset{}, true;
    }

    method AddOne(t: MsgType) returns (first: bool)
      requires Valid()
      modifies this, counters
      ensures Valid() && registered == old(registered) + multiset{t}
      ensures within == (old(within) && registered[t] <= 256)
      ensures first ==> bits == old(bits) + {t}
      ensures !first ==> bits == old(bits)
      ensures within ==> (first <==> t !in old(bits))
    {
      hide Wraps, SlotOk, BitExact;
      ghost var s := SlotOf(t);
      SlotStep(s, Register, within);
      FirstIff(s, within);
      var c := counters[t];
      counters[t] := if c == 255 then 0 else c + 1;
      registered := registered + multiset{t};
      first := c == 0;
      if first {
        bits := bits + {t};
      }
      within := within && registered[t] <= 256;
      assert SlotOf(t) == Apply(s, Register);
      forall u: MsgType ensures SlotOk(SlotOf(u), within) {
        if u != t {
          assert SlotOk(old(SlotOf(u)), old(within));
          SlotWeaken(SlotOf(u), old(within), within);
        }
      }
    }

    method RemoveOne(t: MsgType) returns (last: bool)
      requires Valid() && t in registered
      modifies this, counters
      ensures Valid() && registered == old(registered) - multiset{t}
      ensures within == old(within)
      ensures last ==> bits == old(bits) - {t}
      ensures !last ==> bits == old(bits)
      ensures within ==> (last ==> t in old(bits))
    {
      hide Wraps, SlotOk, BitExact;
      ghost var s := SlotOf(t);
      SlotStep(s, Withdraw, within);
      LastIff(s, within);
      var c := counters[t];
      counters[t] := if c == 0 then 255 else c - 1;
      registered := registered - multiset{t};
      last := counters[t] == 0;
      if last {
        bits := bits - {t};
      }
      assert SlotOf(t) == Apply(s, Withdraw);
      forall u: MsgType ensures SlotOk(SlotOf(u), within) {
        if u != t {
          assert SlotOk(old(SlotOf(u)), old(within));
        }
      }
    }

    /** Add a client's types; `changed` asks for a broadcast of the map. */
    method Add(types: seq<MsgType>) returns (changed: bool)
      requires Valid()
      modifies this, counters
      ensures Valid() && registered == old(registered) + multiset(types)
      ensures within ==> old(within) && (changed <==> bits != old(bits))
      ensures old(within) && (forall t: MsgType :: registered[t] <= 256) ==> within
    {
      hide SlotOk;
      changed := false;
      for i := 0 to |types|
        invariant Valid() && registered == old(registered) + multiset(types[..i])
        invariant within ==> old(within) && old(bits) <= bits && (changed <==> bits != old(bits))
        invariant old(within) && !within ==> exists t: MsgType :: registered[t] > 256
      {
        assert types[..i + 1] == types[..i] + [types[i]];
        ghost var w, r := within, registered;
        var first := AddOne(types[i]);
        if first {
          changed := true;
        }
        if old(within) && !w {
          var t: MsgType :| r[t] > 256;
          assert registered[t] > 256;
        }
      }
      assert types[..|types|] == types;
    }

    /** Remove a client's types. */
    method Remove(types: seq<MsgType>) returns (changed: bool)
      requires Valid() && multiset(types) <= registered
      modifies this, counters
      ensures Valid() && registered == old(registered) - multiset(types)
      ensures within == old(within)
      ensures within ==> (changed <==> bits != old(bits))
    {
      hide SlotOk;
      changed := false;
      for i := 0 to |types|
        invariant Valid() && registered == old(registered) - multiset(types[..i])
        invariant within == old(within)
        invariant within ==> bits <= old(bits) && (changed <==> bits != old(bits))
      {
        StillThere(types, i, old(registered));
        var last := RemoveOne(types[i]);
        if last {
          changed := true;
        }
      }
      assert types[..|types|] == types;
    }

    /** While no type is registered more than 256 times, the map is exactly the set of registered types. */
    lemma MapExact(t: MsgType)
      requires Valid() && within
      ensures t in bits <==> t in registered
    {
      assert SlotOk(SlotOf(t), within);
    }
  }

  lemma SlotWeaken(s: Slot, within: bool, within': bool)
    requires SlotOk(s, within) && (within' ==> within)
    ensures SlotOk(s, within')
  {}

  lemma FirstIff(s: Slot, within: bool)
    requires SlotOk(s, within)
    ensures within && s.count + 1 <= 256 ==> (s.counter == 0 <==> !s.bit)
  {}

  lemma LastIff(s: Slot, within: bool)
    requires SlotOk(s, within) && s.count > 0
    ensures within ==> s.bit
  {}

  lemma StillThere(types: seq<MsgType>, i: nat, all: multiset<MsgType>)
    requires i < |types| && multiset(types) <= all
    ensures types[i] in all - multiset(types[..i])
    ensures all - multiset(types[..i]) - multiset{types[i]} == all - multiset(types[..i + 1])
  {
    assert types == types[..i] + [types[i]] + types[i + 1..];
    assert types[..i + 1] == types[..i] + [types[i]];
  }
}
