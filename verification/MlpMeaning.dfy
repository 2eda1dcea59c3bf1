/**
 What the emitted linear program means: its feasible points are exactly the
 assignments the constraints were written for.
 */
module MlpMeaning {
  import opened CoreTypes
  import opened Mlp

  // ---- sums over addresses

  ghost function SumN(i: Input, k: nat, x: Point): real
    requires k <= |i.order|
  {
    if k == 0 then 0.0 else SumN(i, k - 1, x) + x(N(i, i.order[k - 1]))
  }

  /** Bandwidth on the first `k` addresses that count against quota `c`. */
  ghost function SumNet(i: Input, c: nat, k: nat, x: Point): real
    requires WellFormed(i) && k <= |i.order|
  {
    if k == 0 then 0.0 else
      var a := i.order[k - 1];
      SumNet(i, c, k - 1, x) + (if SlotOf(i, a) == Some(c) then x(B(i, a)) else 0.0)
  }

  /** Addresses in use among the first `j` of a peer. */
  ghost function PeerN(i: Input, p: nat, j: nat, x: Point): real
    requires WellFormed(i) && p < |i.peers| && j <= |i.peers[p].addrs|
  {
    if j == 0 then 0.0 else
      Listed(i, p, j - 1);
      PeerN(i, p, j - 1, x) + x(N(i, i.peers[p].addrs[j - 1]))
  }

  ghost function PeerB(i: Input, p: nat, j: nat, x: Point): real
    requires WellFormed(i) && p < |i.peers| && j <= |i.peers[p].addrs|
  {
    if j == 0 then 0.0 else
      Listed(i, p, j - 1);
      PeerB(i, p, j - 1, x) + x(B(i, i.peers[p].addrs[j - 1]))
  }

  /** Bandwidth of the first `k` peers, weighted by preference. */
  ghost function Utilization(i: Input, k: nat, x: Point): real
    requires WellFormed(i) && k <= |i.peers|
  {
    if k == 0 then 0.0 else
      Utilization(i, k - 1, x) + i.peers[k - 1].f * PeerB(i, k - 1, |i.peers[k - 1].addrs|, x)
  }

  /** Bandwidth of a peer weighted by a metric. */
  ghost function PeerQ(i: Input, c: nat, p: nat, j: nat, x: Point): real
    requires WellFormed(i) && c < i.mq && p < |i.peers| && j <= |i.peers[p].addrs|
  {
    if j == 0 then 0.0 else
      Listed(i, p, j - 1);
      var a := i.peers[p].addrs[j - 1];
      PeerQ(i, c, p, j - 1, x) + i.peers[p].fq[c] * i.info[a].avg[c] * x(B(i, a))
  }

  ghost function Quality(i: Input, c: nat, k: nat, x: Point): real
    requires WellFormed(i) && c < i.mq && k <= |i.peers|
  {
    if k == 0 then 0.0 else Quality(i, c, k - 1, x) + PeerQ(i, c, k - 1, |i.peers[k - 1].addrs|, x)
  }

  /** The constraints as they are meant, on one address. */
  ghost predicate AddressOk(i: Input, a: Addr, x: Point)
    requires a in i.order
  {
    && x(B(i, a)) >= 0.0
    && (x(N(i, a)) == 0.0 || x(N(i, a)) == 1.0)
    && i.bMin * x(N(i, a)) <= x(B(i, a)) <= i.bigM * x(N(i, a))
  }

  /** The constraints as they are meant, on one peer; relativity is only a lower bound. */
  ghost predicate PeerOk(i: Input, p: nat, x: Point)
    requires WellFormed(i) && p < |i.peers|
  {
    && PeerN(i, p, |i.peers[p].addrs|, x) == 1.0
    && PeerB(i, p, |i.peers[p].addrs|, x) >= i.peers[p].f * x(R)
  }

  ghost predicate Intended(i: Input, x: Point)
    requires WellFormed(i)
  {
    && x(D) >= 0.0 && x(U) >= 0.0 && x(R) >= 0.0
    && (forall a :: a in i.order ==> AddressOk(i, a, x))
    && (forall p :: 0 <= p < |i.peers| ==> PeerOk(i, p, x))
    && x(D) == SumN(i, |i.order|, x) >= MinConnections(i) as real
    && x(U) == Utilization(i, |i.peers|, x)
    && (forall c :: 0 <= c < i.mq ==> x(Q(c)) == Quality(i, c, |i.peers|, x) >= 0.0)
    && (forall c :: 0 <= c < NETWORKS ==> SumNet(i, c, |i.order|, x) <= i.quotaOut[c])
  }

  // ---- the value of a row is additive

  lemma {:induction false} ValueAppend(a: seq<Triple>, b: seq<Triple>, row: int, x: Point)
    ensures Value(a + b, row, x) == Value(a, row, x) + Value(b, row, x)
  {
    if b == [] {
      assert a + b == a;
    } else {
      var m := |b| - 1;
      assert (a + b)[..|a| + m] == a + b[..m];
      ValueAppend(a, b[..m], row, x);
    }
  }

  lemma ValueNone(row: int, x: Point)
    ensures Value([], row, x) == 0.0
  {}

  ghost function Term(e: Triple, row: int, x: Point): real {
    if e.row == row then e.coef * x(e.col) else 0.0
  }

  lemma Value1(e: Triple, row: int, x: Point)
    ensures Value([e], row, x) == Term(e, row, x)
  {
    assert [e][..0] == [];
  }

  lemma Value2(e: Triple, f: Triple, row: int, x: Point)
    ensures Value([e, f], row, x) == Term(e, row, x) + Term(f, row, x)
  {
    assert [e, f] == [e] + [f];
    ValueAppend([e], [f], row, x);
    Value1(e, row, x);
    Value1(f, row, x);
  }

  /** What one address contributes to a row. */
  ghost function AddrTerm(i: Input, k: nat, row: int, x: Point): real
    requires WellFormed(i) && k < |i.order|
  {
    var b, n := x(B(i, i.order[k])), x(N(i, i.order[k]));
    if row == R1(k) then b - i.bigM * n
    else if row == R3(k) then b - i.bMin * n
    else if row == R4 || row == R6 then n
    else if SlotOf(i, i.order[k]).Some? && row == RNet(SlotOf(i, i.order[k]).value) then b
    else 0.0
  }

  lemma AddrValue(i: Input, k: nat, row: int, x: Point)
    requires WellFormed(i) && k < |i.order|
    ensures Value(AddrPart(i, k), row, x) == AddrTerm(i, k, row, x)
  {
    hide Value;
    var a := i.order[k];
    var p1 := [Triple(R1(k), B(i, a), 1.0), Triple(R1(k), N(i, a), -i.bigM)];
    var p2 := [Triple(R3(k), B(i, a), 1.0), Triple(R3(k), N(i, a), -i.bMin)];
    var p3 := [Triple(R4, N(i, a), 1.0), Triple(R6, N(i, a), 1.0)];
    Value2(p1[0], p1[1], row, x);
    Value2(p2[0], p2[1], row, x);
    Value2(p3[0], p3[1], row, x);
    ValueAppend(p1, p2, row, x);
    ValueAppend(p1 + p2, p3, row, x);
    match SlotOf(i, a) {
      case None =>
        assert AddrPart(i, k) == p1 + p2 + p3;
      case Some(c) =>
        var e := Triple(RNet(c), B(i, a), 1.0);
        assert AddrPart(i, k) == p1 + p2 + p3 + [e];
        ValueAppend(p1 + p2 + p3, [e], row, x);
        Value1(e, row, x);
    }
  }

  /** The address part of the matrix, row by row. */
  ghost function AddrTotal(i: Input, k: nat, row: int, x: Point): real
    requires WellFormed(i) && k <= |i.order|
  {
    if row == R4 || row == R6 then SumN(i, k, x)
    else if 3 <= row < 3 + NETWORKS then SumNet(i, row - 3, k, x)
    else if R1(0) <= row < R1(k) then
      var m := (row - R1(0)) / 2;
      if row == R1(m) then x(B(i, i.order[m])) - i.bigM * x(N(i, i.order[m]))
      else x(B(i, i.order[m])) - i.bMin * x(N(i, i.order[m]))
    else 0.0
  }

  lemma AddrTotalStep(i: Input, k: nat, row: int, x: Point)
    requires WellFormed(i) && k < |i.order|
    ensures AddrTotal(i, k + 1, row, x) == AddrTotal(i, k, row, x) + AddrTerm(i, k, row, x)
  {
    var slot := SlotOf(i, i.order[k]);
    assert slot.Some? ==> slot.value < NETWORKS;
  }

  lemma {:induction false} AddrValues(i: Input, k: nat, row: int, x: Point)
    requires WellFormed(i) && k <= |i.order|
    ensures Value(AddrParts(i, k), row, x) == AddrTotal(i, k, row, x)
  {
    hide Value, AddrPart;
    ValueNone(row, x);
    if k > 0 {
      AddrValues(i, k - 1, row, x);
      ValueAppend(AddrParts(i, k - 1), AddrPart(i, k - 1), row, x);
      AddrValue(i, k - 1, row, x);
      AddrTotalStep(i, k - 1, row, x);
    }
  }

  /** What the first `j` addresses of a peer contribute to a row. */
  ghost function CellsTotal(i: Input, p: nat, j: nat, row: int, x: Point): real
    requires WellFormed(i) && p < |i.peers| && j <= |i.peers[p].addrs|
  {
    if row == R2(i, p) then PeerN(i, p, j, x)
    else if row == R8(i) then i.peers[p].f * PeerB(i, p, j, x)
    else if row == R9(i, p) then PeerB(i, p, j, x)
    else 0.0
  }

  lemma CellValue(i: Input, p: nat, j: nat, row: int, x: Point)
    requires WellFormed(i) && p < |i.peers| && j < |i.peers[p].addrs|
    ensures CellsTotal(i, p, j + 1, row, x) == CellsTotal(i, p, j, row, x) + Value(PeerCell(i, p, j), row, x)
  {
    hide Value, WellFormed;
    Listed(i, p, j);
    var c := PeerCell(i, p, j);
    assert c == [c[0], c[1]] + [c[2]];
    ValueAppend([c[0], c[1]], [c[2]], row, x);
    Value2(c[0], c[1], row, x);
    Value1(c[2], row, x);
  }

  lemma {:induction false} CellValues(i: Input, p: nat, j: nat, row: int, x: Point)
    requires WellFormed(i) && p < |i.peers| && j <= |i.peers[p].addrs|
    ensures Value(PeerCells(i, p, j), row, x) == CellsTotal(i, p, j, row, x)
  {
    hide WellFormed, Value, PeerCell;
    ValueNone(row, x);
    if j > 0 {
      CellValues(i, p, j - 1, row, x);
      ValueAppend(PeerCells(i, p, j - 1), PeerCell(i, p, j - 1), row, x);
      CellValue(i, p, j - 1, row, x);
    }
  }

  /** The peer part of the matrix, row by row. */
  ghost function PeerTotal(i: Input, k: nat, row: int, x: Point): real
    requires WellFormed(i) && k <= |i.peers|
  {
    if row == R8(i) then Utilization(i, k, x)
    else if R2(i, 0) <= row < R2(i, k) then
      var p := (row - R2(i, 0)) / 2;
      if row == R2(i, p) then PeerN(i, p, |i.peers[p].addrs|, x)
      else PeerB(i, p, |i.peers[p].addrs|, x) - i.peers[p].f * x(R)
    else 0.0
  }

  lemma PeerValue(i: Input, p: nat, row: int, x: Point)
    requires WellFormed(i) && p < |i.peers|
    ensures PeerTotal(i, p + 1, row, x) == PeerTotal(i, p, row, x) + Value(PeerPart(i, p), row, x)
  {
    hide Value, WellFormed, PeerCells;
    var e := Triple(R9(i, p), R, -i.peers[p].f);
    var cells := PeerCells(i, p, |i.peers[p].addrs|);
    ValueAppend([e], cells, row, x);
    Value1(e, row, x);
    CellValues(i, p, |i.peers[p].addrs|, row, x);
  }

  lemma {:induction false} PeerValues(i: Input, k: nat, row: int, x: Point)
    requires WellFormed(i) && k <= |i.peers|
    ensures Value(PeerParts(i, k), row, x) == PeerTotal(i, k, row, x)
  {
    hide WellFormed, Value, PeerPart;
    ValueNone(row, x);
    if k > 0 {
      PeerValues(i, k - 1, row, x);
      ValueAppend(PeerParts(i, k - 1), PeerPart(i, k - 1), row, x);
      PeerValue(i, k - 1, row, x);
    }
  }

  lemma {:induction false} MetricCellValues(i: Input, c: nat, p: nat, j: nat, row: int, x: Point)
    requires WellFormed(i) && c < i.mq && p < |i.peers| && j <= |i.peers[p].addrs|
    ensures Value(MetricCells(i, c, p, j), row, x) == if row == R7(i, c) then PeerQ(i, c, p, j, x) else 0.0
  {
    hide WellFormed, Value, Pos;
    ValueNone(row, x);
    if j > 0 {
      MetricCellValues(i, c, p, j - 1, row, x);
      var e := MetricCell(i, c, p, j - 1);
      ValueAppend(MetricCells(i, c, p, j - 1), [e], row, x);
      Value1(e, row, x);
    }
  }

  lemma {:induction false} MetricPeerValues(i: Input, c: nat, k: nat, row: int, x: Point)
    requires WellFormed(i) && c < i.mq && k <= |i.peers|
    ensures Value(MetricPeers(i, c, k), row, x) == if row == R7(i, c) then Quality(i, c, k, x) else 0.0
  {
    hide WellFormed, Value, MetricCells;
    ValueNone(row, x);
    if k > 0 {
      MetricPeerValues(i, c, k - 1, row, x);
      var cells := MetricCells(i, c, k - 1, |i.peers[k - 1].addrs|);
      ValueAppend(MetricPeers(i, c, k - 1), cells, row, x);
      MetricCellValues(i, c, k - 1, |i.peers[k - 1].addrs|, row, x);
    }
  }

  ghost function MetricTotal(i: Input, k: nat, row: int, x: Point): real
    requires WellFormed(i) && k <= i.mq
  {
    if R7(i, 0) <= row < R7(i, k) then
      var c := row - R7(i, 0);
      Quality(i, c, |i.peers|, x) - x(Q(c))
    else 0.0
  }

  lemma {:induction false} MetricValues(i: Input, k: nat, row: int, x: Point)
    requires WellFormed(i) && k <= i.mq
    ensures Value(MetricParts(i, k), row, x) == MetricTotal(i, k, row, x)
  {
    if k > 0 {
      var c := k - 1;
      MetricValues(i, c, row, x);
      var e := Triple(R7(i, c), Q(c), -1.0);
      var peers := MetricPeers(i, c, |i.peers|);
      ValueAppend(MetricParts(i, c), MetricPart(i, c), row, x);
      ValueAppend([e], peers, row, x);
      Value1(e, row, x);
      MetricPeerValues(i, c, |i.peers|, row, x);
    }
  }

  /** The whole matrix, row by row. */
  lemma RowValue(i: Input, row: int, x: Point)
    requires WellFormed(i)
    ensures Value(Matrix(i), row, x) ==
              (if row == R6 then -x(D) else 0.0) + AddrTotal(i, |i.order|, row, x)
              + (if row == R8(i) then -x(U) else 0.0) + PeerTotal(i, |i.peers|, row, x) + MetricTotal(i, i.mq, row, x)
  {
    hide Value, WellFormed, AddrParts, PeerParts, MetricParts, AddrTotal, PeerTotal, MetricTotal;
    var d, u := Triple(R6, D, -1.0), Triple(R8(i), U, -1.0);
    var a, p, m := AddrParts(i, |i.order|), PeerParts(i, |i.peers|), MetricParts(i, i.mq);
    Value1(d, row, x);
    Value1(u, row, x);
    ValueAppend([d], a, row, x);
    ValueAppend([d] + a, [u], row, x);
    ValueAppend([d] + a + [u], p, row, x);
    ValueAppend([d] + a + [u] + p, m, row, x);
    AddrValues(i, |i.order|, row, x);
    PeerValues(i, |i.peers|, row, x);
    MetricValues(i, i.mq, row, x);
  }

  // ---- rows and columns one by one

  /** The bound of a row by the constraint it stands for. */
  ghost function BoundAt(i: Input, r: int): Bound
    requires WellFormed(i)
  {
    if r == R4 then AtLeast(MinConnections(i) as real)
    else if r == R6 then Exactly(0.0)
    else if 3 <= r < 3 + NETWORKS then AtMost(i.quotaOut[r - 3])
    else if r < R8(i) then (if (r - R1(0)) % 2 == 0 then AtMost(0.0) else AtLeast(0.0))
    else if r == R8(i) then Exactly(0.0)
    else if r < R2(i, 0) then Free
    else if r < R7(i, 0) then (if (r - R2(i, 0)) % 2 == 0 then Exactly(1.0) else AtLeast(0.0))
    else Exactly(0.0)
  }

  lemma PairAt(a: Bound, b: Bound, n: nat, j: nat)
    requires j < 2 * n
    ensures Pairs(a, b, n)[j] == if j % 2 == 0 then a else b
  {
    var k := j / 2;
    assert j == 2 * k || j == 2 * k + 1;
  }

  lemma RowBound(i: Input, r: int)
    requires WellFormed(i)
    ensures |Rows(i)| == R7(i, i.mq) - 1
    ensures 1 <= r <= |Rows(i)| ==> Rows(i)[r - 1] == BoundAt(i, r)
  {
    hide Pairs, Repeat, Quotas;
    if 0 <= r - R1(0) < 2 * |i.order| {
      PairAt(AtMost(0.0), AtLeast(0.0), |i.order|, r - R1(0));
    }
    if 0 <= r - R2(i, 0) < 2 * |i.peers| {
      PairAt(Exactly(1.0), AtLeast(0.0), |i.peers|, r - R2(i, 0));
    }
  }

  /** The constraint that a row stands for. */
  ghost predicate RowMeant(i: Input, r: int, x: Point)
    requires WellFormed(i) && 1 <= r < R7(i, i.mq)
  {
    if r == R4 then SumN(i, |i.order|, x) >= MinConnections(i) as real
    else if r == R6 then x(D) == SumN(i, |i.order|, x)
    else if 3 <= r < 3 + NETWORKS then SumNet(i, r - 3, |i.order|, x) <= i.quotaOut[r - 3]
    else if r < R8(i) then
      var a := i.order[(r - R1(0)) / 2];
      (if (r - R1(0)) % 2 == 0 then x(B(i, a)) <= i.bigM * x(N(i, a)) else x(B(i, a)) >= i.bMin * x(N(i, a)))
    else if r == R8(i) then x(U) == Utilization(i, |i.peers|, x)
    else if r < R2(i, 0) then true
    else if r < R7(i, 0) then
      var p := (r - R2(i, 0)) / 2;
      (if (r - R2(i, 0)) % 2 == 0 then PeerN(i, p, |i.peers[p].addrs|, x) == 1.0
       else PeerB(i, p, |i.peers[p].addrs|, x) >= i.peers[p].f * x(R))
    else x(Q(r - R7(i, 0))) == Quality(i, r - R7(i, 0), |i.peers|, x)
  }

  lemma RowMeaning(i: Input, r: int, x: Point)
    requires WellFormed(i)
    ensures |Rows(i)| == R7(i, i.mq) - 1
    ensures 1 <= r <= |Rows(i)| ==> (RowMet(i, r, x) <==> RowMeant(i, r, x))
  {
    hide Rows, Matrix, SumN, SumNet, PeerN, PeerB, Utilization, Quality, Pos;
    RowBound(i, r);
    RowValue(i, r, x);
    if R1(0) <= r < R8(i) {
      var m := (r - R1(0)) / 2;
      assert r == R1(m) <==> (r - R1(0)) % 2 == 0;
    } else if R2(i, 0) <= r < R7(i, 0) {
      var p := (r - R2(i, 0)) / 2;
      assert r == R2(i, p) <==> (r - R2(i, 0)) % 2 == 0;
    }
  }

  lemma ColumnMeaning(i: Input, c: int, x: Point)
    ensures |Columns(i)| == 3 + i.mq + 2 * |i.order|
    ensures 1 <= c <= 3 + i.mq ==> (ColumnMet(i, c, x) <==> x(c) >= 0.0)
    ensures 3 + i.mq < c <= |Columns(i)| && (c - i.mq) % 2 == 0 ==> (ColumnMet(i, c, x) <==> x(c) >= 0.0)
    ensures 3 + i.mq < c <= |Columns(i)| && (c - i.mq) % 2 == 1 ==> (ColumnMet(i, c, x) <==> x(c) == 0.0 || x(c) == 1.0)
  {
    hide Bases, Switches;
    var j := c - 4 - i.mq;
    if 0 <= j < 2 * |i.order| {
      var k := j / 2;
      assert Switches(|i.order|)[2 * k] == Unbounded && Switches(|i.order|)[2 * k + 1] == Switch;
      assert Columns(i)[c - 1] == Switches(|i.order|)[j];
    }
  }

  /** The feasible points of the emitted problem are exactly the intended assignments. */
  lemma FeasibleIff(i: Input, x: Point)
    requires WellFormed(i)
    ensures Feasible(i, x) <==> Intended(i, x)
  {
    if Feasible(i, x) {
      FeasibleIntended(i, x);
    }
    if Intended(i, x) {
      forall r | 1 <= r <= |Rows(i)| ensures RowMet(i, r, x) {
        RowMeaning(i, r, x);
        IntendedRow(i, r, x);
      }
      forall c | 1 <= c <= |Columns(i)| ensures ColumnMet(i, c, x) {
        ColumnMeaning(i, c, x);
        IntendedColumn(i, c, x);
      }
    }
  }

  lemma IntendedRow(i: Input, r: int, x: Point)
    requires WellFormed(i) && Intended(i, x) && 1 <= r < R7(i, i.mq)
    ensures RowMeant(i, r, x)
  {
    hide WellFormed, SumN, SumNet, PeerN, PeerB, Utilization, Quality, Pos;
    if R1(0) <= r < R8(i) {
      assert AddressOk(i, i.order[(r - R1(0)) / 2], x);
    } else if R2(i, 0) <= r < R7(i, 0) {
      assert PeerOk(i, (r - R2(i, 0)) / 2, x);
    } else if R7(i, 0) <= r {
      var c := r - R7(i, 0);
      assert x(Q(c)) == Quality(i, c, |i.peers|, x);
    }
  }

  lemma IntendedColumn(i: Input, c: int, x: Point)
    requires WellFormed(i) && Intended(i, x)
    ensures 1 <= c <= 3 + i.mq ==> x(c) >= 0.0
    ensures 3 + i.mq < c <= 3 + i.mq + 2 * |i.order| ==>
              if (c - i.mq) % 2 == 0 then x(c) >= 0.0 else x(c) == 0.0 || x(c) == 1.0
  {
    hide SumN, SumNet, PeerN, PeerB, Utilization, Quality, Pos;
    if 4 <= c <= 3 + i.mq {
      assert x(Q(c - 4)) >= 0.0;
    } else if 3 + i.mq < c <= 3 + i.mq + 2 * |i.order| {
      var k := (c - 4 - i.mq) / 2;
      PosAt(i.order, k);
      assert AddressOk(i, i.order[k], x);
    }
  }

  lemma FeasibleIntended(i: Input, x: Point)
    requires WellFormed(i) && Feasible(i, x)
    ensures Intended(i, x)
  {
    hide Rows, Columns, RowMet, ColumnMet, SumN, SumNet, PeerN, PeerB, Utilization, Quality, Pos;
    RowMeaning(i, R4, x);
    RowMeaning(i, R6, x);
    RowMeaning(i, R8(i), x);
    ColumnMeaning(i, D, x);
    ColumnMeaning(i, U, x);
    ColumnMeaning(i, R, x);
    forall c | 0 <= c < NETWORKS ensures SumNet(i, c, |i.order|, x) <= i.quotaOut[c] {
      RowMeaning(i, RNet(c), x);
    }
    forall a | a in i.order ensures AddressOk(i, a, x) {
      FeasibleAddress(i, a, x);
    }
    forall p | 0 <= p < |i.peers| ensures PeerOk(i, p, x) {
      RowMeaning(i, R2(i, p), x);
      RowMeaning(i, R9(i, p), x);
    }
    forall c | 0 <= c < i.mq ensures x(Q(c)) == Quality(i, c, |i.peers|, x) >= 0.0 {
      RowMeaning(i, R7(i, c), x);
      ColumnMeaning(i, Q(c), x);
    }
  }

  lemma FeasibleAddress(i: Input, a: Addr, x: Point)
    requires WellFormed(i) && Feasible(i, x) && a in i.order
    ensures AddressOk(i, a, x)
  {
    hide Rows, Columns, RowMet, ColumnMet, SumN, SumNet, PeerN, PeerB, Utilization, Quality;
    hide Pos;
    var k := Pos(i.order, a);
    RowMeaning(i, R1(k), x);
    RowMeaning(i, R3(k), x);
    ColumnMeaning(i, B(i, a), x);
    ColumnMeaning(i, N(i, a), x);
  }

  // ---- what a feasible point gives every peer

  ghost function Usage(i: Input, a: Addr, x: Point): real {
    if a in i.order then x(N(i, a)) else 0.0
  }

  lemma {:induction false} CountSelected(i: Input, p: nat, m: nat, x: Point)
    requires WellFormed(i) && p < |i.peers| && m <= |i.peers[p].addrs|
    requires forall a :: a in i.order ==> AddressOk(i, a, x)
    ensures PeerN(i, p, m, x) == 0.0 || PeerN(i, p, m, x) >= 1.0
    ensures PeerN(i, p, m, x) == 0.0 ==> forall j :: 0 <= j < m ==> Usage(i, i.peers[p].addrs[j], x) == 0.0
    ensures PeerN(i, p, m, x) == 1.0 ==> exists j :: 0 <= j < m && Selected(i, p, j, m, x)
  {
    hide WellFormed, Pos;
    if m > 0 {
      CountSelected(i, p, m - 1, x);
      Listed(i, p, m - 1);
      var a := i.peers[p].addrs[m - 1];
      assert AddressOk(i, a, x);
      if PeerN(i, p, m, x) == 1.0 {
        if x(N(i, a)) == 1.0 {
          assert Selected(i, p, m - 1, m, x);
        } else {
          var j :| 0 <= j < m - 1 && Selected(i, p, j, m - 1, x);
          assert Selected(i, p, j, m, x);
        }
      }
    }
  }

  /** Of the first `m` addresses of a peer, exactly the j-th is in use. */
  ghost predicate Selected(i: Input, p: nat, j: nat, m: nat, x: Point)
    requires p < |i.peers| && j < m <= |i.peers[p].addrs|
  {
    forall k :: 0 <= k < m ==> Usage(i, i.peers[p].addrs[k], x) == if k == j then 1.0 else 0.0
  }

  /** Every peer uses exactly one address, with bandwidth between the minimum and M; its others get none. */
  lemma OneAddressPerPeer(i: Input, p: nat, x: Point) returns (j: nat)
    requires WellFormed(i) && Feasible(i, x) && p < |i.peers|
    ensures j < |i.peers[p].addrs|
    ensures forall k :: 0 <= k < |i.peers[p].addrs| ==>
              var a := i.peers[p].addrs[k];
              && a in i.order
              && x(N(i, a)) == (if k == j then 1.0 else 0.0)
              && (if k == j then i.bMin <= x(B(i, a)) <= i.bigM else x(B(i, a)) == 0.0)
  {
    hide Pos, PeerN, Flat, Feasible;
    FeasibleIff(i, x);
    var m := |i.peers[p].addrs|;
    CountSelected(i, p, m, x);
    assert PeerOk(i, p, x);
    j :| 0 <= j < m && Selected(i, p, j, m, x);
    forall k | 0 <= k < m
      ensures var a := i.peers[p].addrs[k];
              && a in i.order
              && x(N(i, a)) == (if k == j then 1.0 else 0.0)
              && (if k == j then i.bMin <= x(B(i, a)) <= i.bigM else x(B(i, a)) == 0.0)
    {
      Listed(i, p, k);
      var a := i.peers[p].addrs[k];
      assert Usage(i, a, x) == if k == j then 1.0 else 0.0;
      assert AddressOk(i, a, x);
    }
  }

  ghost function SumOver(s: seq<Addr>, i: Input, x: Point): real {
    if s == [] then 0.0 else SumOver(s[..|s| - 1], i, x) + Usage(i, s[|s| - 1], x)
  }

  lemma {:induction false} SumAppend(s: seq<Addr>, t: seq<Addr>, i: Input, x: Point)
    ensures SumOver(s + t, i, x) == SumOver(s, i, x) + SumOver(t, i, x)
  {
    if t == [] {
      assert s + t == s;
    } else {
      var m := |t| - 1;
      assert (s + t)[..|s| + m] == s + t[..m];
      SumAppend(s, t[..m], i, x);
    }
  }

  lemma SumTakeOut(s: seq<Addr>, k: nat, i: Input, x: Point)
    requires k < |s|
    ensures SumOver(s, i, x) == SumOver(s[..k] + s[k + 1..], i, x) + Usage(i, s[k], x)
  {
    assert s == s[..k] + [s[k]] + s[k + 1..];
    SumAppend(s[..k], [s[k]], i, x);
    SumAppend(s[..k] + [s[k]], s[k + 1..], i, x);
    SumAppend(s[..k], s[k + 1..], i, x);
    assert [s[k]][..0] == [];
  }

  lemma TakeOut(s: seq<Addr>, k: nat)
    requires k < |s|
    ensures multiset(s[..k] + s[k + 1..]) == multiset(s) - multiset{s[k]}
  {
    assert s == s[..k] + [s[k]] + s[k + 1..];
  }

  /** A sum does not depend on the order. */
  lemma {:induction false} SumPermuted(s: seq<Addr>, t: seq<Addr>, i: Input, x: Point)
    requires multiset(s) == multiset(t)
    ensures SumOver(s, i, x) == SumOver(t, i, x)
  {
    if s != [] {
      var m := |s| - 1;
      var a := s[m];
      assert a in multiset(t);
      var k :| 0 <= k < |t| && t[k] == a;
      TakeOut(s, m);
      TakeOut(t, k);
      assert s[..m] + s[m + 1..] == s[..m];
      SumPermuted(s[..m], t[..k] + t[k + 1..], i, x);
      SumTakeOut(t, k, i, x);
    } else {
      assert |multiset(t)| == 0;
    }
  }

  lemma {:induction false} SumOfOrder(i: Input, k: nat, x: Point)
    requires k <= |i.order|
    ensures SumN(i, k, x) == SumOver(i.order[..k], i, x)
  {
    if k > 0 {
      SumOfOrder(i, k - 1, x);
      assert i.order[..k][..k - 1] == i.order[..k - 1];
    }
  }

  lemma {:induction false} SumOfPeer(i: Input, p: nat, j: nat, x: Point)
    requires WellFormed(i) && p < |i.peers| && j <= |i.peers[p].addrs|
    ensures PeerN(i, p, j, x) == SumOver(i.peers[p].addrs[..j], i, x)
  {
    hide WellFormed;
    if j > 0 {
      SumOfPeer(i, p, j - 1, x);
      Listed(i, p, j - 1);
      assert i.peers[p].addrs[..j][..j - 1] == i.peers[p].addrs[..j - 1];
    }
  }

  lemma {:induction false} SumOfPeers(i: Input, k: nat, x: Point)
    requires WellFormed(i) && k <= |i.peers| && forall p :: 0 <= p < |i.peers| ==> PeerOk(i, p, x)
    ensures SumOver(Flat(i.peers[..k]), i, x) == k as real
  {
    hide WellFormed, PeerN, PeerB;
    if k > 0 {
      var p := k - 1;
      SumOfPeers(i, p, x);
      assert i.peers[..k][..p] == i.peers[..p];
      SumAppend(Flat(i.peers[..p]), i.peers[p].addrs, i, x);
      assert PeerOk(i, p, x);
      SumOfPeer(i, p, |i.peers[p].addrs|, x);
      assert i.peers[p].addrs[..|i.peers[p].addrs|] == i.peers[p].addrs;
    }
  }

  /** The diversity variable is the number of peers, and each network stays within its quota. */
  lemma DiversityIsPeers(i: Input, x: Point)
    requires WellFormed(i) && Feasible(i, x)
    ensures x(D) == |i.peers| as real
    ensures forall c :: 0 <= c < NETWORKS ==> SumNet(i, c, |i.order|, x) <= i.quotaOut[c]
  {
    hide Pos, PeerN, Flat, Feasible, SumN, SumNet, SumOver;
    FeasibleIff(i, x);
    SumOfOrder(i, |i.order|, x);
    assert i.order[..|i.order|] == i.order;
    SumOfPeers(i, |i.peers|, x);
    assert i.peers[..|i.peers|] == i.peers;
    SumPermuted(Flat(i.peers), i.order, i, x);
  }
}
