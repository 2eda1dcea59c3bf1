/**
 Construction of the linear program in place: rows and columns are added to the
 solver's problem, and the sparse matrix is filled through a running index.
 */
module MlpBuilder {
  import opened CoreTypes
  import opened Mlp
  import opened MlpShape

  lemma {:induction false} AddrMono(i: Input, k: nat, n: nat)
    requires WellFormed(i) && k <= n <= |i.order|
    ensures |AddrParts(i, k)| <= |AddrParts(i, n)|
    decreases n
  {
    hide WellFormed, AddrPart;
    if k < n {
      AddrMono(i, k, n - 1);
    }
  }

  lemma {:induction false} PeerMono(i: Input, k: nat, n: nat)
    requires WellFormed(i) && k <= n <= |i.peers|
    ensures |PeerParts(i, k)| <= |PeerParts(i, n)|
    decreases n
  {
    hide WellFormed, PeerPart;
    if k < n {
      PeerMono(i, k, n - 1);
    }
  }

  lemma {:induction false} MetricMono(i: Input, k: nat, n: nat)
    requires WellFormed(i) && k <= n <= i.mq
    ensures |MetricParts(i, k)| <= |MetricParts(i, n)|
    decreases n
  {
    hide WellFormed, MetricPart;
    if k < n {
      MetricMono(i, k, n - 1);
    }
  }

  lemma {:induction false} MetricPeerMono(i: Input, c: nat, k: nat, n: nat)
    requires WellFormed(i) && c < i.mq && k <= n <= |i.peers|
    ensures |MetricPeers(i, c, k)| <= |MetricPeers(i, c, n)|
    decreases n
  {
    hide WellFormed, MetricCells;
    if k < n {
      MetricPeerMono(i, c, k, n - 1);
    }
  }

  /** The sparse matrix handed to the solver; the first element of each array is not used. */
  class Sparse {
    const ia: array<int>
    const ja: array<int>
    const ar: array<real>
    var ci: nat
    ghost var emitted: seq<Triple>

    ghost predicate Valid()
      reads this, ia, ja, ar
    {
      && ia.Length == ja.Length == ar.Length && ia != ja
      && 1 <= ci <= ia.Length && |emitted| == ci - 1
      && (forall k :: 1 <= k < ci ==> Triple(ia[k], ja[k], ar[k]) == emitted[k - 1])
    }

    constructor (size: nat)
      requires size >= 1
      ensures Valid() && ia.Length == size && emitted == []
      ensures fresh(ia) && fresh(ja) && fresh(ar)
    {
      ia, ja, ar := new int[size](_ => 0), new int[size](_ => 0), new real[size](_ => 0.0);
      ci, emitted := 1, [];
    }

    lemma Length()
      requires Valid()
      ensures |emitted| == ci - 1
    {}

    /** Write one entry. */
    method Emit(row: int, col: int, coef: real)
      requires Valid() && ci < ia.Length
      modifies this, ia, ja, ar
      ensures Valid() && emitted == old(emitted) + [Triple(row, col, coef)] && ci == old(ci) + 1
    {
      ia[ci] := row;
      ja[ci] := col;
      ar[ci] := coef;
      ci := ci + 1;
      emitted := emitted + [Triple(row, col, coef)];
    }
  }

  class Builder {
    const i: Input

    // the solver's problem
    var rows: seq<Bound>
    var cols: seq<Column>
    var matrix: Sparse

    // column numbers
    var cD: int
    var cU: int
    var cR: int
    var cQ: seq<int>
    var colB: map<Addr, int>
    var colN: map<Addr, int>

    // row numbers
    var r4: int
    var r6: int
    var r8: int
    var rQuota: seq<int>

    ghost predicate ColumnsKnown()
      reads this`cD, this`cU, this`cR, this`cQ, this`colB, this`colN
    {
      && cD == D && cU == U && cR == R && |cQ| == i.mq && (forall c :: 0 <= c < i.mq ==> cQ[c] == Q(c))
      && (forall a :: a in i.order ==> a in colB && colB[a] == B(i, a) && a in colN && colN[a] == N(i, a))
    }

    ghost predicate RowsKnown()
      reads this`r4, this`r6, this`rQuota
    {
      r4 == R4 && r6 == R6 && |rQuota| == NETWORKS && forall c :: 0 <= c < NETWORKS ==> rQuota[c] == RNet(c)
    }

    constructor (i: Input)
      ensures this.i == i && rows == [] && cols == [] && fresh(matrix)
    {
      this.i := i;
      rows, cols := [], [];
      matrix := new Sparse(1);
    }

    /** Add unbounded rows; their numbers are consecutive. */
    method AddRows(n: nat) returns (first: int)
      modifies this`rows
      ensures rows == old(rows) + Repeat(Free, n) && first == |old(rows)| + 1
    {
      first := |rows| + 1;
      rows := rows + Repeat(Free, n);
    }

    method AddRow(b: Bound) returns (row: int)
      modifies this`rows
      ensures rows == old(rows) + [b] && row == |old(rows)| + 1
    {
      row := AddRows(1);
      rows := rows[row - 1 := b];
    }

    method AddColumn(c: Column) returns (col: int)
      modifies this`cols
      ensures cols == old(cols) + [c] && col == |old(cols)| + 1
    {
      cols := cols + [c];
      col := |cols|;
    }

    // ---- columns

    method CreateColumns()
      requires WellFormed(i) && cols == []
      modifies this`cols, this`cD, this`cU, this`cR, this`cQ, this`colB, this`colN
      ensures cols == Columns(i) && ColumnsKnown()
    {
      hide WellFormed, Pos, Flat;
      assert NoDup(i.order) by { InOrder(i); }
      cD := AddColumn(Unbounded);
      cU := AddColumn(Unbounded);
      cR := AddColumn(Unbounded);
      CreateMetricColumns();
      CreateAddressColumns();
    }

    method CreateMetricColumns()
      requires cols == [Unbounded, Unbounded, Unbounded]
      modifies this`cols, this`cQ
      ensures cols == Bases(3 + i.mq) && |cQ| == i.mq && forall c :: 0 <= c < i.mq ==> cQ[c] == Q(c)
    {
      cQ := [];
      for c := 0 to i.mq
        invariant cols == Bases(3 + c) && |cQ| == c
        invariant forall d :: 0 <= d < c ==> cQ[d] == Q(d)
      {
        var col := AddColumn(Unbounded);
        cQ := cQ + [col];
      }
    }

    method CreateAddressColumns()
      requires NoDup(i.order) && cols == Bases(3 + i.mq)
      modifies this`cols, this`colB, this`colN
      ensures cols == Columns(i)
      ensures forall a :: a in i.order ==> a in colB && colB[a] == B(i, a) && a in colN && colN[a] == N(i, a)
    {
      hide Pos;
      for k := 0 to |i.order|
        invariant cols == Bases(3 + i.mq) + Switches(k)
        invariant forall j :: 0 <= j < k ==>
          var a := i.order[j]; a in colB && colB[a] == B(i, a) && a in colN && colN[a] == N(i, a)
      {
        CreateColumnsFor(k);
      }
      forall a | a in i.order ensures a in colB && colB[a] == B(i, a) && a in colN && colN[a] == N(i, a) {
        var j :| 0 <= j < |i.order| && i.order[j] == a;
      }
    }

    method CreateColumnsFor(k: nat)
      requires k < |i.order| && NoDup(i.order)
      requires cols == Bases(3 + i.mq) + Switches(k)
      modifies this`cols, this`colB, this`colN
      ensures cols == Bases(3 + i.mq) + Switches(k + 1)
      ensures colB == old(colB)[i.order[k] := B(i, i.order[k])] && colN == old(colN)[i.order[k] := N(i, i.order[k])]
    {
      PosAt(i.order, k);
      var b := AddColumn(Unbounded);
      var n := AddColumn(Switch);
      colB := colB[i.order[k] := b];
      colN := colN[i.order[k] := n];
    }

    // ---- rows and entries

    /** Compile the address table. */
    method CreateProblem()
      requires WellFormed(i) && 1 + |Matrix(i)| <= Allocated(i) && rows == [] && cols == []
      modifies this
      ensures rows == Rows(i) && cols == Columns(i)
      ensures fresh(matrix) && matrix.Valid() && matrix.emitted == Matrix(i)
    {
      hide WellFormed, Matrix, Rows, Columns, Sparse.Valid;
      CreateColumns();
      AddConstraints();
    }

    method AddConstraints()
      requires WellFormed(i) && ColumnsKnown() && 1 + |Matrix(i)| <= Allocated(i) && rows == []
      modifies this`matrix, this`rows, this`r4, this`r6, this`r8, this`rQuota
      ensures rows == Rows(i) && fresh(matrix) && matrix.Valid() && matrix.emitted == Matrix(i)
    {
      hide WellFormed, AddrParts, PeerParts, MetricParts, Sparse.Valid, ColumnsKnown, RowsKnown, Pairs, Repeat, Quotas;
      matrix := new Sparse(7 * |i.order| + (5 * |i.order| + i.mq + |i.peers| + 2) + 1);
      assert matrix.ci == 1 by { matrix.Length(); }
      AddPerAddress();
      assert matrix.ci < matrix.ia.Length by { matrix.Length(); }
      AddUtilization();
      assert matrix.ci + |PeerParts(i, |i.peers|)| + |MetricParts(i, i.mq)| <= matrix.ia.Length by { matrix.Length(); }
      AddPeers();
      assert matrix.ci + |MetricParts(i, i.mq)| <= matrix.ia.Length by { matrix.Length(); }
      AddMetrics();
    }

    /** Constraints "for all addresses". */
    method AddPerAddress()
      requires WellFormed(i) && ColumnsKnown() && rows == []
      requires matrix.Valid() && matrix.ci == 1 && 2 + |AddrParts(i, |i.order|)| <= matrix.ia.Length
      modifies this`rows, this`r4, this`r6, this`rQuota, matrix, matrix.ia, matrix.ja, matrix.ar
      ensures rows == [AtLeast(MinConnections(i) as real), Exactly(0.0)] + Quotas(i, NETWORKS)
                      + Pairs(AtMost(0.0), AtLeast(0.0), |i.order|)
      ensures matrix.Valid() && matrix.emitted == [Triple(R6, D, -1.0)] + AddrParts(i, |i.order|)
    {
      hide WellFormed, AddrParts, Sparse.Valid, ColumnsKnown, RowsKnown, Pairs, Quotas;
      var min := if i.nMin > |i.peers| then |i.peers| else i.nMin;
      r4 := AddRow(AtLeast(min as real));
      r6 := AddRow(Exactly(0.0));
      assert cD == D by { FixedColumns(); }
      assert matrix.emitted == [] by { matrix.Length(); }
      matrix.Emit(r6, cD, -1.0);
      AddQuotas();
      AddAddresses();
    }

    /** The utilization row, and further rows without bounds or entries, one less than there are peers. */
    method AddUtilization()
      requires WellFormed(i) && ColumnsKnown() && |rows| == R8(i) - 1 && matrix.Valid() && matrix.ci < matrix.ia.Length
      modifies this`rows, this`r8, matrix, matrix.ia, matrix.ja, matrix.ar
      ensures rows == old(rows) + [Exactly(0.0)] + Repeat(Free, |i.peers| - 1) && r8 == R8(i)
      ensures matrix.Valid() && matrix.emitted == old(matrix.emitted) + [Triple(R8(i), U, -1.0)]
    {
      hide WellFormed, Sparse.Valid, Repeat;
      r8 := AddRows(|i.peers|);
      assert |i.peers| >= 1 by { HasPeers(i); }
      rows := rows[r8 - 1 := Exactly(0.0)];
      matrix.Emit(r8, cU, -1.0);
    }

    lemma FixedColumns()
      requires ColumnsKnown()
      ensures cD == D
    {}

    method AddQuotas()
      requires WellFormed(i) && r4 == R4 && r6 == R6 && |rows| == 2
      modifies this`rows, this`rQuota
      ensures rows == old(rows) + Quotas(i, NETWORKS) && RowsKnown()
    {
      rQuota := [];
      for c := 0 to NETWORKS
        invariant rows == old(rows) + Quotas(i, c) && |rQuota| == c
        invariant forall d :: 0 <= d < c ==> rQuota[d] == RNet(d)
      {
        var row := AddRow(AtMost(i.quotaOut[c]));
        rQuota := rQuota + [row];
      }
    }

    method AddAddresses()
      requires WellFormed(i) && ColumnsKnown() && RowsKnown() && |rows| == R1(0) - 1
      requires matrix.Valid() && matrix.ci + |AddrParts(i, |i.order|)| <= matrix.ia.Length
      modifies this`rows, matrix, matrix.ia, matrix.ja, matrix.ar
      ensures matrix.Valid() && matrix.emitted == old(matrix.emitted) + AddrParts(i, |i.order|)
      ensures rows == old(rows) + Pairs(AtMost(0.0), AtLeast(0.0), |i.order|)
    {
      hide WellFormed, Sparse.Valid, ColumnsKnown, RowsKnown, AddrPart;
      for k := 0 to |i.order|
        invariant matrix.Valid() && matrix.emitted == old(matrix.emitted) + AddrParts(i, k)
        invariant matrix.ci == old(matrix.ci) + |AddrParts(i, k)|
        invariant rows == old(rows) + Pairs(AtMost(0.0), AtLeast(0.0), k)
      {
        AddrMono(i, k + 1, |i.order|);
        matrix.Length();
        AddAddress(k);
        matrix.Length();
      }
    }

    method AddPeers()
      requires WellFormed(i) && ColumnsKnown() && r8 == R8(i) && |rows| == R2(i, 0) - 1
      requires matrix.Valid() && matrix.ci + |PeerParts(i, |i.peers|)| <= matrix.ia.Length
      modifies this`rows, matrix, matrix.ia, matrix.ja, matrix.ar
      ensures matrix.Valid() && matrix.emitted == old(matrix.emitted) + PeerParts(i, |i.peers|)
      ensures rows == old(rows) + Pairs(Exactly(1.0), AtLeast(0.0), |i.peers|)
    {
      hide WellFormed, Sparse.Valid, ColumnsKnown, PeerPart;
      for p := 0 to |i.peers|
        invariant matrix.Valid() && matrix.emitted == old(matrix.emitted) + PeerParts(i, p)
        invariant matrix.ci == old(matrix.ci) + |PeerParts(i, p)|
        invariant rows == old(rows) + Pairs(Exactly(1.0), AtLeast(0.0), p)
      {
        PeerMono(i, p + 1, |i.peers|);
        matrix.Length();
        AddPeer(p);
        matrix.Length();
      }
    }

    method AddMetrics()
      requires WellFormed(i) && ColumnsKnown() && |rows| == R7(i, 0) - 1
      requires matrix.Valid() && matrix.ci + |MetricParts(i, i.mq)| <= matrix.ia.Length
      modifies this`rows, matrix, matrix.ia, matrix.ja, matrix.ar
      ensures matrix.Valid() && matrix.emitted == old(matrix.emitted) + MetricParts(i, i.mq)
      ensures rows == old(rows) + Repeat(Exactly(0.0), i.mq)
    {
      hide WellFormed, Sparse.Valid, ColumnsKnown, MetricPart;
      for c := 0 to i.mq
        invariant matrix.Valid() && matrix.emitted == old(matrix.emitted) + MetricParts(i, c)
        invariant matrix.ci == old(matrix.ci) + |MetricParts(i, c)|
        invariant rows == old(rows) + Repeat(Exactly(0.0), c)
      {
        MetricMono(i, c + 1, i.mq);
        matrix.Length();
        AddMetric(c);
        matrix.Length();
      }
    }

    /** The rows and entries of one address. */
    method AddAddress(k: nat)
      requires WellFormed(i) && ColumnsKnown() && RowsKnown() && k < |i.order| && |rows| == R1(k) - 1
      requires matrix.Valid() && matrix.ci + |AddrPart(i, k)| <= matrix.ia.Length
      modifies this`rows, matrix, matrix.ia, matrix.ja, matrix.ar
      ensures matrix.Valid() && matrix.emitted == old(matrix.emitted) + AddrPart(i, k)
      ensures rows == old(rows) + [AtMost(0.0), AtLeast(0.0)]
    {
      hide Sparse.Valid, Flat, Pos;
      var a := i.order[k];
      var row := AddRow(AtMost(0.0));
      matrix.Emit(row, colB[a], 1.0);
      matrix.Emit(row, colN[a], -i.bigM);
      row := AddRow(AtLeast(0.0));
      matrix.Emit(row, colB[a], 1.0);
      matrix.Emit(row, colN[a], -i.bMin);
      matrix.Emit(r4, colN[a], 1.0);
      matrix.Emit(r6, colN[a], 1.0);
      var slot := Slot(i.quotaIndex, i.info[a].net, 0);
      if slot.Some? {
        matrix.Emit(rQuota[slot.value], colB[a], 1.0);
      }
    }

    /** The rows and entries of one peer. */
    method AddPeer(p: nat)
      requires WellFormed(i) && ColumnsKnown() && r8 == R8(i) && p < |i.peers| && |rows| == R2(i, p) - 1
      requires matrix.Valid() && matrix.ci + |PeerPart(i, p)| <= matrix.ia.Length
      modifies this`rows, matrix, matrix.ia, matrix.ja, matrix.ar
      ensures matrix.Valid() && matrix.emitted == old(matrix.emitted) + PeerPart(i, p)
      ensures rows == old(rows) + [Exactly(1.0), AtLeast(0.0)]
    {
      hide Sparse.Valid, Flat, Pos, WellFormed, PeerCells, PeerCell;
      var r2 := AddRow(Exactly(1.0));
      var r9 := AddRow(AtLeast(0.0));
      var addrs := i.peers[p].addrs;
      CellsSize(i, p, |addrs|);
      matrix.Emit(r9, cR, -i.peers[p].f);
      ghost var start := matrix.emitted;
      CellsStep(i, p, 0);
      for j := 0 to |addrs|
        invariant matrix.Valid() && matrix.emitted == start + PeerCells(i, p, j)
        invariant matrix.ci + 3 * (|addrs| - j) <= matrix.ia.Length
        invariant rows == old(rows) + [Exactly(1.0), AtLeast(0.0)]
      {
        CellsStep(i, p, j + 1);
        AddPeerAddress(p, j, r2, r9);
      }
    }

    method AddPeerAddress(p: nat, j: nat, r2: int, r9: int)
      requires WellFormed(i) && ColumnsKnown() && r8 == R8(i) && p < |i.peers| && j < |i.peers[p].addrs|
      requires r2 == R2(i, p) && r9 == R9(i, p)
      requires matrix.Valid() && matrix.ci + 3 <= matrix.ia.Length
      modifies matrix, matrix.ia, matrix.ja, matrix.ar
      ensures matrix.Valid() && matrix.emitted == old(matrix.emitted) + PeerCell(i, p, j)
      ensures matrix.ci == old(matrix.ci) + 3
    {
      hide Sparse.Valid, Flat, Pos;
      Listed(i, p, j);
      var a := i.peers[p].addrs[j];
      matrix.Emit(r2, colN[a], 1.0);
      matrix.Emit(r8, colB[a], i.peers[p].f);
      matrix.Emit(r9, colB[a], 1.0);
    }

    /** The row and entries of one quality metric. */
    method AddMetric(c: nat)
      requires WellFormed(i) && ColumnsKnown() && c < i.mq && |rows| == R7(i, c) - 1
      requires matrix.Valid() && matrix.ci + |MetricPart(i, c)| <= matrix.ia.Length
      modifies this`rows, matrix, matrix.ia, matrix.ja, matrix.ar
      ensures matrix.Valid() && matrix.emitted == old(matrix.emitted) + MetricPart(i, c)
      ensures rows == old(rows) + [Exactly(0.0)]
    {
      hide Sparse.Valid, Flat, Pos, WellFormed, MetricPeers;
      var row := AddRow(Exactly(0.0));
      ghost var size := matrix.ci + |MetricPart(i, c)|;
      matrix.Emit(row, cQ[c], -1.0);
      ghost var start, from := matrix.emitted, matrix.ci;
      MetricPeersStep(i, c, 0);
      for p := 0 to |i.peers|
        invariant matrix.Valid() && matrix.emitted == start + MetricPeers(i, c, p)
        invariant matrix.ci == from + |MetricPeers(i, c, p)|
        invariant rows == old(rows) + [Exactly(0.0)]
      {
        MetricPeersStep(i, c, p + 1);
        MetricPeerMono(i, c, p + 1, |i.peers|);
        AddMetricOfPeer(c, p, row);
      }
    }

    method AddMetricOfPeer(c: nat, p: nat, row: int)
      requires WellFormed(i) && ColumnsKnown() && c < i.mq && row == R7(i, c) && p < |i.peers|
      requires matrix.Valid() && matrix.ci + |MetricCells(i, c, p, |i.peers[p].addrs|)| <= matrix.ia.Length
      modifies matrix, matrix.ia, matrix.ja, matrix.ar
      ensures matrix.Valid() && matrix.emitted == old(matrix.emitted) + MetricCells(i, c, p, |i.peers[p].addrs|)
      ensures matrix.ci == old(matrix.ci) + |MetricCells(i, c, p, |i.peers[p].addrs|)|
    {
      hide Sparse.Valid, Flat, Pos, WellFormed, MetricCell;
      var addrs := i.peers[p].addrs;
      MetricCellsSize(i, c, p, |addrs|);
      for j := 0 to |addrs|
        invariant matrix.Valid() && matrix.emitted == old(matrix.emitted) + MetricCells(i, c, p, j)
        invariant matrix.ci == old(matrix.ci) + j
      {
        AddMetricCell(c, p, j, row);
      }
    }

    method AddMetricCell(c: nat, p: nat, j: nat, row: int)
      requires WellFormed(i) && ColumnsKnown() && c < i.mq && row == R7(i, c) && p < |i.peers| && j < |i.peers[p].addrs|
      requires matrix.Valid() && matrix.ci < matrix.ia.Length
      modifies matrix, matrix.ia, matrix.ja, matrix.ar
      ensures matrix.Valid() && matrix.emitted == old(matrix.emitted) + [MetricCell(i, c, p, j)]
      ensures matrix.ci == old(matrix.ci) + 1
    {
      hide Sparse.Valid, Flat, Pos;
      Listed(i, p, j);
      var a := i.peers[p].addrs[j];
      var value := i.info[a].avg[c];
      assert MetricCell(i, c, p, j) == Triple(row, colB[a], i.peers[p].fq[c] * value);
      matrix.Emit(row, colB[a], i.peers[p].fq[c] * value);
    }
  }

  lemma CellsStep(i: Input, p: nat, j: nat)
    requires WellFormed(i) && p < |i.peers| && j <= |i.peers[p].addrs|
    ensures j == 0 ==> PeerCells(i, p, j) == []
    ensures j > 0 ==> PeerCells(i, p, j) == PeerCells(i, p, j - 1) + PeerCell(i, p, j - 1)
  {}

  lemma MetricPeersStep(i: Input, c: nat, p: nat)
    requires WellFormed(i) && c < i.mq && p <= |i.peers|
    ensures p == 0 ==> MetricPeers(i, c, p) == []
    ensures p > 0 ==>
              MetricPeers(i, c, p) == MetricPeers(i, c, p - 1) + MetricCells(i, c, p - 1, |i.peers[p - 1].addrs|)
  {}

  lemma HasPeers(i: Input)
    requires WellFormed(i)
    ensures i.peers != []
  {}

  lemma InOrder(i: Input)
    requires WellFormed(i)
    ensures NoDup(i.order)
  {}
}
