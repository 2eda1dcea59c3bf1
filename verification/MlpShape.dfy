/**
 The shape of the emitted matrix: how many entries there are, that their row and
 column numbers exist, and that none is written twice.
 */
module MlpShape {
  import opened CoreTypes
  import opened Mlp

  // ---- size

  /** How many of the first `k` addresses are of a network type with a quota. */
  ghost function Found(i: Input, k: nat): (r: nat)
    requires WellFormed(i) && k <= |i.order|
    ensures r <= k
  {
    if k == 0 then 0 else Found(i, k - 1) + if SlotOf(i, i.order[k - 1]).Some? then 1 else 0
  }

  lemma {:induction false} AddrSize(i: Input, k: nat)
    requires WellFormed(i) && k <= |i.order|
    ensures |AddrParts(i, k)| == 6 * k + Found(i, k)
  {
    if k > 0 {
      AddrSize(i, k - 1);
    }
  }

  lemma {:induction false} CellsSize(i: Input, p: nat, j: nat)
    requires WellFormed(i) && p < |i.peers| && j <= |i.peers[p].addrs|
    ensures |PeerCells(i, p, j)| == 3 * j
  {
    hide WellFormed;
    if j > 0 {
      CellsSize(i, p, j - 1);
    }
  }

  lemma FlatStep(peers: seq<PeerRec>, k: nat)
    requires k <= |peers|
    ensures k == 0 ==> Flat(peers[..k]) == []
    ensures k > 0 ==> Flat(peers[..k]) == Flat(peers[..k - 1]) + peers[k - 1].addrs
  {
    if k > 0 {
      assert peers[..k][..k - 1] == peers[..k - 1];
    }
  }

  lemma {:induction false} PeersSize(i: Input, k: nat)
    requires WellFormed(i) && k <= |i.peers|
    ensures |PeerParts(i, k)| == k + 3 * |Flat(i.peers[..k])|
  {
    hide WellFormed;
    FlatStep(i.peers, k);
    if k > 0 {
      PeersSize(i, k - 1);
      CellsSize(i, k - 1, |i.peers[k - 1].addrs|);
    }
  }

  lemma {:induction false} MetricCellsSize(i: Input, c: nat, p: nat, j: nat)
    requires WellFormed(i) && c < i.mq && p < |i.peers| && j <= |i.peers[p].addrs|
    ensures |MetricCells(i, c, p, j)| == j
  {
    hide WellFormed;
    if j > 0 {
      MetricCellsSize(i, c, p, j - 1);
    }
  }

  lemma {:induction false} MetricPeersSize(i: Input, c: nat, k: nat)
    requires WellFormed(i) && c < i.mq && k <= |i.peers|
    ensures |MetricPeers(i, c, k)| == |Flat(i.peers[..k])|
  {
    hide WellFormed;
    FlatStep(i.peers, k);
    if k > 0 {
      MetricPeersSize(i, c, k - 1);
      MetricCellsSize(i, c, k - 1, |i.peers[k - 1].addrs|);
    }
  }

  lemma FlatLength(i: Input)
    requires WellFormed(i)
    ensures i.peers[..|i.peers|] == i.peers && |Flat(i.peers)| == |i.order|
  {
    assert |multiset(Flat(i.peers))| == |multiset(i.order)|;
  }

  lemma {:induction false} MetricsSize(i: Input, k: nat)
    requires WellFormed(i) && k <= i.mq
    ensures |MetricParts(i, k)| == k * (1 + |i.order|)
  {
    hide WellFormed;
    if k > 0 {
      MetricsSize(i, k - 1);
      MetricPeersSize(i, k - 1, |i.peers|);
      FlatLength(i);
      assert k * (1 + |i.order|) == (k - 1) * (1 + |i.order|) + 1 + |i.order|;
    }
  }

  /** The number of array elements that are allocated; the first is not used. */
  function Allocated(i: Input): nat {
    7 * |i.order| + (5 * |i.order| + i.mq + |i.peers| + 2) + 1
  }

  /** How many entries the matrix has. */
  lemma MatrixSize(i: Input)
    requires WellFormed(i)
    ensures |Matrix(i)| == (9 + i.mq) * |i.order| + Found(i, |i.order|) + i.mq + |i.peers| + 2
  {
    hide AddrParts, PeerParts, MetricParts, WellFormed, Flat, Found;
    AddrSize(i, |i.order|);
    PeersSize(i, |i.peers|);
    FlatLength(i);
    MetricsSize(i, i.mq);
    Spread(i.mq, |i.order|);
  }

  lemma Spread(q: nat, n: nat)
    ensures q * (1 + n) + 9 * n == (9 + q) * n + q == 9 * n + q * n + q
  {}

  /** Exactly when the entries fit into the arrays: with two metrics always, with more only if few
      addresses are of a known network type. */
  lemma FitsIff(i: Input)
    requires WellFormed(i)
    ensures 1 + |Matrix(i)| <= Allocated(i) <==> Found(i, |i.order|) + i.mq * |i.order| <= 3 * |i.order|
  {
    hide Matrix, Found, WellFormed;
    MatrixSize(i);
    Spread(i.mq, |i.order|);
  }

  lemma TwoMetricsFit(i: Input)
    requires WellFormed(i) && i.mq <= 2
    ensures 1 + |Matrix(i)| <= Allocated(i)
    ensures i.mq == 2 && Found(i, |i.order|) == |i.order| ==> 1 + |Matrix(i)| == Allocated(i)
  {
    MatrixSize(i);
    if i.mq == 2 {
      assert (9 + i.mq) * |i.order| == 11 * |i.order|;
    } else if i.mq == 1 {
      assert (9 + i.mq) * |i.order| == 10 * |i.order|;
    } else {
      assert (9 + i.mq) * |i.order| == 9 * |i.order|;
    }
  }

  // ---- no entry is written twice, none is out of range

  /** How often a position of the matrix is written. */
  ghost function Count(es: seq<Triple>, row: int, col: int): nat {
    if es == [] then 0 else
      var e := es[|es| - 1];
      Count(es[..|es| - 1], row, col) + if e.row == row && e.col == col then 1 else 0
  }

  lemma {:induction false} CountAppend(a: seq<Triple>, b: seq<Triple>, row: int, col: int)
    ensures Count(a + b, row, col) == Count(a, row, col) + Count(b, row, col)
  {
    if b == [] {
      assert a + b == a;
    } else {
      var m := |b| - 1;
      assert (a + b)[..|a| + m] == a + b[..m];
      CountAppend(a, b[..m], row, col);
    }
  }

  ghost function Hit(e: Triple, row: int, col: int): nat {
    if e.row == row && e.col == col then 1 else 0
  }

  lemma Count1(e: Triple, row: int, col: int)
    ensures Count([e], row, col) == Hit(e, row, col)
  {
    assert [e][..0] == [];
  }

  lemma Count2(e: Triple, f: Triple, row: int, col: int)
    ensures Count([e, f], row, col) == Hit(e, row, col) + Hit(f, row, col)
  {
    assert [e, f] == [e] + [f];
    CountAppend([e], [f], row, col);
    Count1(e, row, col);
    Count1(f, row, col);
  }

  /** The address that a column belongs to. */
  ghost function Owner(i: Input, col: int): Option<Addr> {
    if 4 + i.mq <= col < 4 + i.mq + 2 * |i.order| then Some(i.order[(col - 4 - i.mq) / 2]) else None
  }

  lemma OwnerOf(i: Input, a: Addr)
    requires a in i.order
    ensures Owner(i, B(i, a)) == Some(a) && Owner(i, N(i, a)) == Some(a)
  {}

  lemma AddrCount(i: Input, k: nat, row: int, col: int)
    requires WellFormed(i) && k < |i.order|
    ensures Count(AddrPart(i, k), row, col) <= 1
    ensures (col - 4 - i.mq) / 2 != k ==> Count(AddrPart(i, k), row, col) == 0
    ensures !(1 <= row < R8(i)) ==> Count(AddrPart(i, k), row, col) == 0
  {
    hide Count;
    PosAt(i.order, k);
    var a := i.order[k];
    var p1 := [Triple(R1(k), B(i, a), 1.0), Triple(R1(k), N(i, a), -i.bigM)];
    var p2 := [Triple(R3(k), B(i, a), 1.0), Triple(R3(k), N(i, a), -i.bMin)];
    var p3 := [Triple(R4, N(i, a), 1.0), Triple(R6, N(i, a), 1.0)];
    Count2(p1[0], p1[1], row, col);
    Count2(p2[0], p2[1], row, col);
    Count2(p3[0], p3[1], row, col);
    CountAppend(p1, p2, row, col);
    CountAppend(p1 + p2, p3, row, col);
    match SlotOf(i, a) {
      case None =>
        assert AddrPart(i, k) == p1 + p2 + p3;
      case Some(c) =>
        var e := Triple(RNet(c), B(i, a), 1.0);
        assert AddrPart(i, k) == p1 + p2 + p3 + [e];
        CountAppend(p1 + p2 + p3, [e], row, col);
        Count1(e, row, col);
    }
  }

  lemma {:induction false} AddrCounts(i: Input, k: nat, row: int, col: int)
    requires WellFormed(i) && k <= |i.order|
    ensures Count(AddrParts(i, k), row, col) <= 1
    ensures !(4 + i.mq <= col < 4 + i.mq + 2 * k) || !(1 <= row < R8(i)) ==> Count(AddrParts(i, k), row, col) == 0
  {
    if k > 0 {
      AddrCounts(i, k - 1, row, col);
      AddrCount(i, k - 1, row, col);
      CountAppend(AddrParts(i, k - 1), AddrPart(i, k - 1), row, col);
    }
  }

  lemma CellCount(i: Input, p: nat, j: nat, row: int, col: int)
    requires WellFormed(i) && p < |i.peers| && j < |i.peers[p].addrs|
    ensures Count(PeerCell(i, p, j), row, col) <= 1
    ensures Owner(i, col) != Some(i.peers[p].addrs[j]) ==> Count(PeerCell(i, p, j), row, col) == 0
    ensures row != R2(i, p) && row != R8(i) && row != R9(i, p) ==> Count(PeerCell(i, p, j), row, col) == 0
  {
    hide Count, Owner, Pos, Flat;
    Listed(i, p, j);
    OwnerOf(i, i.peers[p].addrs[j]);
    var c := PeerCell(i, p, j);
    assert c == [c[0], c[1]] + [c[2]];
    CountAppend([c[0], c[1]], [c[2]], row, col);
    Count2(c[0], c[1], row, col);
    Count1(c[2], row, col);
  }

  lemma {:induction false} CellCounts(i: Input, p: nat, j: nat, row: int, col: int)
    requires WellFormed(i) && p < |i.peers| && j <= |i.peers[p].addrs| && NoDup(i.peers[p].addrs)
    ensures Count(PeerCells(i, p, j), row, col) <= 1
    ensures (forall k :: 0 <= k < j ==> Owner(i, col) != Some(i.peers[p].addrs[k])) ==>
              Count(PeerCells(i, p, j), row, col) == 0
    ensures row != R2(i, p) && row != R8(i) && row != R9(i, p) ==> Count(PeerCells(i, p, j), row, col) == 0
  {
    hide WellFormed, Owner, PeerCell;
    if j > 0 {
      CellCounts(i, p, j - 1, row, col);
      CellCount(i, p, j - 1, row, col);
      CountAppend(PeerCells(i, p, j - 1), PeerCell(i, p, j - 1), row, col);
    }
  }

  // every address is in one peer's list, once

  lemma {:induction false} MultisetNoDup(s: seq<Addr>, t: seq<Addr>)
    requires NoDup(s) && multiset(s) == multiset(t)
    ensures NoDup(t)
  {
    forall j, k | 0 <= j < k < |t| ensures t[j] != t[k] {
      if t[j] == t[k] {
        assert t == t[..j] + [t[j]] + t[j + 1..k] + [t[k]] + t[k + 1..];
        assert multiset(t)[t[j]] >= 2;
        Once(s, t[j]);
      }
    }
  }

  lemma {:induction false} Once(s: seq<Addr>, a: Addr)
    requires NoDup(s)
    ensures multiset(s)[a] <= 1
  {
    if s != [] {
      var m := |s| - 1;
      assert s == s[..m] + [s[m]];
      Once(s[..m], a);
      if a == s[m] {
        assert a !in s[..m];
      }
    }
  }

  lemma {:induction false} FlatNoDup(peers: seq<PeerRec>, k: nat)
    requires NoDup(Flat(peers)) && k <= |peers|
    ensures NoDup(Flat(peers[..k]))
    decreases |peers|
  {
    if k == |peers| {
      assert peers[..k] == peers;
    } else {
      var init := peers[..|peers| - 1];
      var f := Flat(init);
      assert forall j :: 0 <= j < |f| ==> f[j] == Flat(peers)[j];
      FlatNoDup(init, k);
      assert init[..k] == peers[..k];
    }
  }

  /** A peer's own addresses differ, and they differ from those of the peers before it. */
  lemma Apart(peers: seq<PeerRec>, p: nat)
    requires NoDup(Flat(peers)) && p < |peers|
    ensures NoDup(peers[p].addrs)
    ensures forall a :: a in peers[p].addrs ==> a !in Flat(peers[..p])
  {
    hide Flat;
    FlatNoDup(peers, p + 1);
    FlatStep(peers, p + 1);
    NoDupParts(Flat(peers[..p]), peers[p].addrs);
  }

  lemma NoDupParts(f: seq<Addr>, s: seq<Addr>)
    requires NoDup(f + s)
    ensures NoDup(s) && forall a :: a in s ==> a !in f
  {
    forall j, k | 0 <= j < k < |s| ensures s[j] != s[k] {
      assert (f + s)[|f| + j] == s[j] && (f + s)[|f| + k] == s[k];
    }
    forall j, k | 0 <= j < |s| && 0 <= k < |f| ensures s[j] != f[k] {
      assert (f + s)[|f| + j] == s[j] && (f + s)[k] == f[k];
    }
  }

  lemma {:induction false} PeerCounts(i: Input, k: nat, row: int, col: int)
    requires WellFormed(i) && k <= |i.peers| && NoDup(Flat(i.peers))
    ensures Count(PeerParts(i, k), row, col) <= 1
    ensures Owner(i, col) == None && col != R ==> Count(PeerParts(i, k), row, col) == 0
    ensures Owner(i, col).Some? && Owner(i, col).value !in Flat(i.peers[..k]) ==> Count(PeerParts(i, k), row, col) == 0
    ensures row != R8(i) && !(R2(i, 0) <= row < R2(i, k)) ==> Count(PeerParts(i, k), row, col) == 0
    ensures row == R8(i) && col == R ==> Count(PeerParts(i, k), row, col) == 0
  {
    hide WellFormed, PeerCells, Flat;
    FlatStep(i.peers, k);
    if k > 0 {
      var p := k - 1;
      PeerCounts(i, p, row, col);
      Apart(i.peers, p);
      var e := Triple(R9(i, p), R, -i.peers[p].f);
      var cells := PeerCells(i, p, |i.peers[p].addrs|);
      CountAppend(PeerParts(i, p), PeerPart(i, p), row, col);
      CountAppend([e], cells, row, col);
      Count1(e, row, col);
      CellCounts(i, p, |i.peers[p].addrs|, row, col);
    }
  }

  lemma {:induction false} MetricCellCounts(i: Input, c: nat, p: nat, j: nat, row: int, col: int)
    requires WellFormed(i) && c < i.mq && p < |i.peers| && j <= |i.peers[p].addrs| && NoDup(i.peers[p].addrs)
    ensures Count(MetricCells(i, c, p, j), row, col) <= 1
    ensures (forall k :: 0 <= k < j ==> Owner(i, col) != Some(i.peers[p].addrs[k])) ==>
              Count(MetricCells(i, c, p, j), row, col) == 0
    ensures row != R7(i, c) ==> Count(MetricCells(i, c, p, j), row, col) == 0
  {
    hide Owner, Flat;
    if j > 0 {
      MetricCellCounts(i, c, p, j - 1, row, col);
      var e := MetricCell(i, c, p, j - 1);
      Listed(i, p, j - 1);
      OwnerOf(i, i.peers[p].addrs[j - 1]);
      Count1(e, row, col);
      CountAppend(MetricCells(i, c, p, j - 1), [e], row, col);
    }
  }

  lemma {:induction false} MetricPeerCounts(i: Input, c: nat, k: nat, row: int, col: int)
    requires WellFormed(i) && c < i.mq && k <= |i.peers| && NoDup(Flat(i.peers))
    ensures Count(MetricPeers(i, c, k), row, col) <= 1
    ensures Owner(i, col) == None ==> Count(MetricPeers(i, c, k), row, col) == 0
    ensures Owner(i, col).Some? && Owner(i, col).value !in Flat(i.peers[..k]) ==>
              Count(MetricPeers(i, c, k), row, col) == 0
    ensures row != R7(i, c) ==> Count(MetricPeers(i, c, k), row, col) == 0
  {
    hide WellFormed, MetricCells;
    FlatStep(i.peers, k);
    if k > 0 {
      var p := k - 1;
      MetricPeerCounts(i, c, p, row, col);
      Apart(i.peers, p);
      CountAppend(MetricPeers(i, c, p), MetricCells(i, c, p, |i.peers[p].addrs|), row, col);
      MetricCellCounts(i, c, p, |i.peers[p].addrs|, row, col);
    }
  }

  lemma {:induction false} MetricCounts(i: Input, k: nat, row: int, col: int)
    requires WellFormed(i) && k <= i.mq && NoDup(Flat(i.peers))
    ensures Count(MetricParts(i, k), row, col) <= 1
    ensures !(R7(i, 0) <= row < R7(i, k)) || !(4 <= col < 4 + i.mq + 2 * |i.order|) ==>
              Count(MetricParts(i, k), row, col) == 0
  {
    hide WellFormed, MetricPeers;
    if k > 0 {
      var c := k - 1;
      MetricCounts(i, c, row, col);
      var e := Triple(R7(i, c), Q(c), -1.0);
      CountAppend(MetricParts(i, c), MetricPart(i, c), row, col);
      CountAppend([e], MetricPeers(i, c, |i.peers|), row, col);
      Count1(e, row, col);
      MetricPeerCounts(i, c, |i.peers|, row, col);
    }
  }

  /** Every position is written at most once, and only positions that exist are written. */
  lemma MatrixCounts(i: Input, row: int, col: int)
    requires WellFormed(i)
    ensures Count(Matrix(i), row, col) <= 1
    ensures !(1 <= row <= |Rows(i)|) || !(1 <= col <= |Columns(i)|) ==> Count(Matrix(i), row, col) == 0
  {
    Bounds(i);
    hide Count, AddrParts, PeerParts, MetricParts, Rows, Columns, Flat;
    MultisetNoDup(i.order, Flat(i.peers));
    var d, u := Triple(R6, D, -1.0), Triple(R8(i), U, -1.0);
    var a, p, m := AddrParts(i, |i.order|), PeerParts(i, |i.peers|), MetricParts(i, i.mq);
    Count1(d, row, col);
    Count1(u, row, col);
    CountAppend([d], a, row, col);
    CountAppend([d] + a, [u], row, col);
    CountAppend([d] + a + [u], p, row, col);
    CountAppend([d] + a + [u] + p, m, row, col);
    AddrCounts(i, |i.order|, row, col);
    PeerCounts(i, |i.peers|, row, col);
    MetricCounts(i, i.mq, row, col);
  }

  lemma Bounds(i: Input)
    requires WellFormed(i)
    ensures |Rows(i)| == R7(i, i.mq) - 1 && |Columns(i)| == 3 + i.mq + 2 * |i.order|
  {}

  lemma {:induction false} CountAt(es: seq<Triple>, j: nat)
    requires j < |es|
    ensures Count(es, es[j].row, es[j].col) >= 1
  {
    if j < |es| - 1 {
      CountAt(es[..|es| - 1], j);
    }
  }

  lemma {:induction false} CountTwice(es: seq<Triple>, j: nat, k: nat)
    requires j < k < |es| && es[j].row == es[k].row && es[j].col == es[k].col
    ensures Count(es, es[j].row, es[j].col) >= 2
  {
    if k < |es| - 1 {
      CountTwice(es[..|es| - 1], j, k);
    } else {
      CountAt(es[..|es| - 1], j);
    }
  }

  /** All entries are in range and no (row, column) pair repeats. */
  lemma MatrixShape(i: Input, j: nat)
    requires WellFormed(i) && j < |Matrix(i)|
    ensures 1 <= Matrix(i)[j].row <= |Rows(i)| && 1 <= Matrix(i)[j].col <= |Columns(i)|
    ensures forall k :: 0 <= k < |Matrix(i)| && k != j ==>
              Matrix(i)[k].row != Matrix(i)[j].row || Matrix(i)[k].col != Matrix(i)[j].col
  {
    hide Matrix, Count, Rows, Columns, WellFormed;
    var es := Matrix(i);
    MatrixCounts(i, es[j].row, es[j].col);
    CountAt(es, j);
    forall k | 0 <= k < |es| && k != j ensures es[k].row != es[j].row || es[k].col != es[j].col {
      if es[k].row == es[j].row && es[k].col == es[j].col {
        CountTwice(es, if k < j then k else j, if k < j then j else k);
      }
    }
  }
}
