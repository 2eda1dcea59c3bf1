/**
 The linear program over addresses (gnunet-service-ats_addresses_mlp.c): the
 address table is compiled into rows, columns and a sparse matrix for a solver.
 This file defines the compiled problem and its feasible points; what they mean is
 proved in MlpMeaning, and how it is built in MlpShape and MlpBuilder.
 */
module Mlp {
  import opened CoreTypes

  type Addr = nat

  const NETWORKS := 5       // number of network types

  datatype Triple = Triple(row: int, col: int, coef: real)

  datatype Bound = Free | AtLeast(lo: real) | AtMost(hi: real) | Between(low: real, high: real) | Exactly(v: real)

  datatype Column = Column(bound: Bound, integral: bool)

  /** Network type and averaged quality metrics of an address. */
  datatype AddrInfo = AddrInfo(net: nat, avg: seq<real>)

  /** A peer with its addresses, its preference and its preferences by metric. */
  datatype PeerRec = PeerRec(id: Peer, addrs: seq<Addr>, f: real, fq: seq<real>)

  /** `order` is the order in which the address map is iterated. */
  datatype Input = Input(
    order: seq<Addr>,
    info: map<Addr, AddrInfo>,
    peers: seq<PeerRec>,
    quotaIndex: seq<nat>,
    quotaOut: seq<real>,
    bigM: real,
    bMin: real,
    nMin: nat,
    mq: nat)

  /** All addresses in the peers' lists. */
  ghost function Flat(peers: seq<PeerRec>): seq<Addr> {
    if peers == [] then [] else Flat(peers[..|peers| - 1]) + peers[|peers| - 1].addrs
  }

  /** The address map is the union of the peers' lists, and every array is long enough. */
  ghost predicate WellFormed(i: Input) {
    && i.peers != [] && NoDup(i.order) && multiset(Flat(i.peers)) == multiset(i.order)
    && |i.quotaIndex| == NETWORKS && |i.quotaOut| == NETWORKS
    && (forall a :: a in i.order ==> a in i.info && |i.info[a].avg| >= i.mq)
    && (forall p :: 0 <= p < |i.peers| ==> |i.peers[p].fq| >= i.mq)
  }

  // ---- columns: d, u, r, the metrics, then bandwidth and usage of each address

  const D := 1
  const U := 2
  const R := 3

  function Q(c: nat): int { 4 + c }

  function Pos(s: seq<Addr>, a: Addr): (k: nat)
    requires a in s
    ensures k < |s| && s[k] == a
  {
    if s[0] == a then 0 else 1 + Pos(s[1..], a)
  }

  lemma {:induction false} PosAt(s: seq<Addr>, k: nat)
    requires NoDup(s) && k < |s|
    ensures Pos(s, s[k]) == k
  {
    if k > 0 {
      assert s[0] != s[k];
      assert s[1..][k - 1] == s[k];
      PosAt(s[1..], k - 1);
    }
  }

  function B(i: Input, a: Addr): int
    requires a in i.order
  {
    4 + i.mq + 2 * Pos(i.order, a)
  }

  function N(i: Input, a: Addr): int
    requires a in i.order
  {
    B(i, a) + 1
  }

  // ---- rows

  const R4 := 1
  const R6 := 2

  function RNet(c: nat): int { 3 + c }
  function R1(k: nat): int { 3 + NETWORKS + 2 * k }
  function R3(k: nat): int { R1(k) + 1 }
  function R8(i: Input): int { R1(|i.order|) }
  function R2(i: Input, p: nat): int { R8(i) + |i.peers| + 2 * p }
  function R9(i: Input, p: nat): int { R2(i, p) + 1 }
  function R7(i: Input, c: nat): int { R2(i, |i.peers|) + c }

  /** The quota that an address counts against: the first with its network type. */
  function Slot(index: seq<nat>, net: nat, c: nat): (r: Option<nat>)
    requires c <= |index|
    ensures r.Some? ==> c <= r.value < |index| && index[r.value] == net
    ensures r.Some? ==> forall j :: c <= j < r.value ==> index[j] != net
    ensures r.None? ==> forall j :: c <= j < |index| ==> index[j] != net
    decreases |index| - c
  {
    if c == |index| then None else if index[c] == net then Some(c) else Slot(index, net, c + 1)
  }

  ghost function SlotOf(i: Input, a: Addr): Option<nat>
    requires a in i.info
  {
    Slot(i.quotaIndex, i.info[a].net, 0)
  }

  // ---- the matrix

  ghost function AddrPart(i: Input, k: nat): seq<Triple>
    requires WellFormed(i) && k < |i.order|
  {
    var a := i.order[k];
    [Triple(R1(k), B(i, a), 1.0), Triple(R1(k), N(i, a), -i.bigM),
     Triple(R3(k), B(i, a), 1.0), Triple(R3(k), N(i, a), -i.bMin),
     Triple(R4, N(i, a), 1.0), Triple(R6, N(i, a), 1.0)]
    + (match SlotOf(i, a) case None => [] case Some(c) => [Triple(RNet(c), B(i, a), 1.0)])
  }

  ghost function AddrParts(i: Input, k: nat): seq<Triple>
    requires WellFormed(i) && k <= |i.order|
  {
    if k == 0 then [] else AddrParts(i, k - 1) + AddrPart(i, k - 1)
  }

  lemma {:induction false} FlatMember(peers: seq<PeerRec>, p: nat, j: nat)
    requires p < |peers| && j < |peers[p].addrs|
    ensures peers[p].addrs[j] in Flat(peers)
  {
    if p < |peers| - 1 {
      FlatMember(peers[..|peers| - 1], p, j);
    }
  }

  lemma Listed(i: Input, p: nat, j: nat)
    requires WellFormed(i) && p < |i.peers| && j < |i.peers[p].addrs|
    ensures i.peers[p].addrs[j] in i.order
  {
    FlatMember(i.peers, p, j);
    assert i.peers[p].addrs[j] in multiset(Flat(i.peers));
  }

  ghost function PeerCell(i: Input, p: nat, j: nat): seq<Triple>
    requires WellFormed(i) && p < |i.peers| && j < |i.peers[p].addrs|
  {
    Listed(i, p, j);
    var a := i.peers[p].addrs[j];
    [Triple(R2(i, p), N(i, a), 1.0), Triple(R8(i), B(i, a), i.peers[p].f), Triple(R9(i, p), B(i, a), 1.0)]
  }

  ghost function PeerCells(i: Input, p: nat, j: nat): seq<Triple>
    requires WellFormed(i) && p < |i.peers| && j <= |i.peers[p].addrs|
  {
    if j == 0 then [] else PeerCells(i, p, j - 1) + PeerCell(i, p, j - 1)
  }

  ghost function PeerPart(i: Input, p: nat): seq<Triple>
    requires WellFormed(i) && p < |i.peers|
  {
    [Triple(R9(i, p), R, -i.peers[p].f)] + PeerCells(i, p, |i.peers[p].addrs|)
  }

  ghost function PeerParts(i: Input, p: nat): seq<Triple>
    requires WellFormed(i) && p <= |i.peers|
  {
    if p == 0 then [] else PeerParts(i, p - 1) + PeerPart(i, p - 1)
  }

  ghost function MetricCell(i: Input, c: nat, p: nat, j: nat): Triple
    requires WellFormed(i) && c < i.mq && p < |i.peers| && j < |i.peers[p].addrs|
  {
    Listed(i, p, j);
    var a := i.peers[p].addrs[j];
    Triple(R7(i, c), B(i, a), i.peers[p].fq[c] * i.info[a].avg[c])
  }

  ghost function MetricCells(i: Input, c: nat, p: nat, j: nat): seq<Triple>
    requires WellFormed(i) && c < i.mq && p < |i.peers| && j <= |i.peers[p].addrs|
  {
    if j == 0 then [] else MetricCells(i, c, p, j - 1) + [MetricCell(i, c, p, j - 1)]
  }

  ghost function MetricPeers(i: Input, c: nat, p: nat): seq<Triple>
    requires WellFormed(i) && c < i.mq && p <= |i.peers|
  {
    if p == 0 then [] else MetricPeers(i, c, p - 1) + MetricCells(i, c, p - 1, |i.peers[p - 1].addrs|)
  }

  ghost function MetricPart(i: Input, c: nat): seq<Triple>
    requires WellFormed(i) && c < i.mq
  {
    [Triple(R7(i, c), Q(c), -1.0)] + MetricPeers(i, c, |i.peers|)
  }

  ghost function MetricParts(i: Input, c: nat): seq<Triple>
    requires WellFormed(i) && c <= i.mq
  {
    if c == 0 then [] else MetricParts(i, c - 1) + MetricPart(i, c - 1)
  }

  ghost function Matrix(i: Input): seq<Triple>
    requires WellFormed(i)
  {
    [Triple(R6, D, -1.0)] + AddrParts(i, |i.order|) + [Triple(R8(i), U, -1.0)]
    + PeerParts(i, |i.peers|) + MetricParts(i, i.mq)
  }

  // ---- bounds of rows and columns

  function Repeat(b: Bound, n: nat): (r: seq<Bound>)
    ensures |r| == n && forall k :: 0 <= k < n ==> r[k] == b
  {
    if n == 0 then [] else Repeat(b, n - 1) + [b]
  }

  /** The least number of connections asked for. */
  function MinConnections(i: Input): nat {
    if i.nMin > |i.peers| then |i.peers| else i.nMin
  }

  ghost function Quotas(i: Input, c: nat): (r: seq<Bound>)
    requires c <= |i.quotaOut|
    ensures |r| == c && forall k :: 0 <= k < c ==> r[k] == AtMost(i.quotaOut[k])
  {
    if c == 0 then [] else Quotas(i, c - 1) + [AtMost(i.quotaOut[c - 1])]
  }

  /** `n` pairs of rows with the given bounds. */
  ghost function Pairs(a: Bound, b: Bound, n: nat): (r: seq<Bound>)
    ensures |r| == 2 * n && forall k :: 0 <= k < n ==> r[2 * k] == a && r[2 * k + 1] == b
  {
    if n == 0 then [] else Pairs(a, b, n - 1) + [a, b]
  }

  ghost function Rows(i: Input): seq<Bound>
    requires WellFormed(i)
  {
    [AtLeast(MinConnections(i) as real), Exactly(0.0)] + Quotas(i, NETWORKS)
    + Pairs(AtMost(0.0), AtLeast(0.0), |i.order|)
    + [Exactly(0.0)] + Repeat(Free, |i.peers| - 1)
    + Pairs(Exactly(1.0), AtLeast(0.0), |i.peers|)
    + Repeat(Exactly(0.0), i.mq)
  }

  const Unbounded := Column(AtLeast(0.0), false)
  const Switch := Column(Between(0.0, 1.0), true)

  ghost function Bases(n: nat): (r: seq<Column>)
    ensures |r| == n && forall k :: 0 <= k < n ==> r[k] == Unbounded
  {
    if n == 0 then [] else Bases(n - 1) + [Unbounded]
  }

  ghost function Switches(n: nat): (r: seq<Column>)
    ensures |r| == 2 * n && forall k :: 0 <= k < n ==> r[2 * k] == Unbounded && r[2 * k + 1] == Switch
  {
    if n == 0 then [] else Switches(n - 1) + [Unbounded, Switch]
  }

  ghost function Columns(i: Input): seq<Column> {
    Bases(3 + i.mq) + Switches(|i.order|)
  }

  // ---- what it means

  type Point = int -> real

  /** The value of a row at a point. */
  ghost function Value(es: seq<Triple>, row: int, x: Point): real {
    if es == [] then 0.0 else
      var e := es[|es| - 1];
      Value(es[..|es| - 1], row, x) + (if e.row == row then e.coef * x(e.col) else 0.0)
  }

  ghost predicate Meets(b: Bound, v: real) {
    match b
    case Free => true
    case AtLeast(lo) => v >= lo
    case AtMost(hi) => v <= hi
    case Between(low, high) => low <= v <= high
    case Exactly(w) => v == w
  }

  ghost predicate Admits(c: Column, v: real) {
    Meets(c.bound, v) && (c.integral ==> v == v.Floor as real)
  }

  ghost predicate RowMet(i: Input, r: int, x: Point)
    requires WellFormed(i) && 1 <= r <= |Rows(i)|
  {
    Meets(Rows(i)[r - 1], Value(Matrix(i), r, x))
  }

  ghost predicate ColumnMet(i: Input, c: int, x: Point)
    requires 1 <= c <= |Columns(i)|
  {
    Admits(Columns(i)[c - 1], x(c))
  }

  /** A feasible point of the emitted problem. */
  ghost predicate Feasible(i: Input, x: Point)
    requires WellFormed(i)
  {
    && (forall r :: 1 <= r <= |Rows(i)| ==> RowMet(i, r, x))
    && (forall c :: 1 <= c <= |Columns(i)| ==> ColumnMet(i, c, x))
  }
}
