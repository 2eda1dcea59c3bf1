/**
 From one peer to the other: the batches that a link seals (Transmission) meet the
 window over sequence numbers of the receiver (ReplayWindow).
 */
module Delivery {
  import opened CoreTypes
  import T = Transmission
  import W = ReplayWindow

  /** The newest number is the greatest that has arrived. */
  lemma {:induction false} NewestIsGreatest(run: seq<W.Seq32>)
    ensures W.After(run).newest == 0 || W.After(run).newest in run
    ensures forall j :: 0 <= j < |run| ==> run[j] <= W.After(run).newest
  {
    if run != [] {
      var k := |run| - 1;
      NewestIsGreatest(run[..k]);
      W.AfterSnoc(run);
      assert run == run[..k] + [run[k]];
    }
  }

  /** If no number arrives twice, each is accepted if and only if none that arrived before it is more than 32 ahead. */
  lemma AcceptedUnlessOvertaken(run: seq<W.Seq32>, k: nat)
    requires k < |run| && NoDup(run) && forall j :: 0 <= j < |run| ==> run[j] >= 1
    ensures W.AcceptedAt(run, k) <==> forall j :: 0 <= j < k ==> run[j] as int - run[k] as int <= 32
  {
    hide W.After, W.Judge;
    var before := run[..k];
    var newest := W.After(before).newest;
    NewestIsGreatest(before);
    W.AcceptedIff(run, k);
    assert run[k] !in before;
    assert newest != run[k];
    assert !W.LateIn(before, run[k]);
    if newest in before {
      var j :| 0 <= j < k && before[j] == newest;
      assert run[j] == newest;
    }
    forall j | 0 <= j < k ensures run[j] <= newest {
      assert before[j] == run[j];
    }
  }

  /** The numbers of the batches that arrive, in the order of their arrival; `at` says which batch each one is. */
  ghost predicate Arrival(ws: seq<T.Wire>, at: seq<nat>, run: seq<W.Seq32>) {
    && |at| == |run| && NoDup(at)
    && (forall k :: 0 <= k < |at| ==> at[k] < |ws| && ws[at[k]].Sealed? && ws[at[k]].seqno == run[k])
  }

  lemma NumbersArrive(ws: seq<T.Wire>, at: seq<nat>, run: seq<W.Seq32>)
    requires T.Numbered(ws) && T.Seals(ws) < 0x1_0000_0000 && Arrival(ws, at, run)
    ensures NoDup(run) && forall k :: 0 <= k < |run| ==> run[k] >= 1
  {
    hide T.Numbered, T.Seals;
    forall k | 0 <= k < |run| ensures run[k] >= 1 {
      T.NumberAt(ws, at[k]);
    }
    forall j, k | 0 <= j < k < |run| ensures run[j] != run[k] {
      if at[j] < at[k] {
        T.NumbersDiffer(ws, at[j], at[k]);
      } else {
        T.NumbersDiffer(ws, at[k], at[j]);
      }
    }
  }

  /**
   Of everything a link ever sealed, below 2^32 batches, let any part arrive in any order but none twice: a batch
   is accepted, once, if and only if no batch sealed more than 32 numbers later arrived before it.
   */
  lemma ArrivesOnce(ws: seq<T.Wire>, at: seq<nat>, run: seq<W.Seq32>, k: nat)
    requires T.Numbered(ws) && T.Seals(ws) < 0x1_0000_0000 && Arrival(ws, at, run) && k < |run|
    ensures W.AcceptedAt(run, k) <==>
              forall j :: 0 <= j < k ==> T.Seals(ws[..at[j] + 1]) <= T.Seals(ws[..at[k] + 1]) + 32
    ensures forall j :: 0 <= j < |run| && run[j] == run[k] ==> j == k
  {
    hide T.Numbered, T.Seals, W.AcceptedAt;
    NumbersArrive(ws, at, run);
    AcceptedUnlessOvertaken(run, k);
    forall j | 0 <= j < |run| ensures run[j] == T.Seals(ws[..at[j] + 1]) {
      T.NumberAt(ws, at[j]);
    }
  }
}
