/**
 The window over received sequence numbers (gnunet-service-core_kx.c): the
 newest number accepted and a 32-bit word over the 32 numbers before it.
 */
module ReplayWindow {

  type Seq32 = n: nat | n < 0x1_0000_0000

  /** An unsigned 32-bit word, given by its bits, least significant first. */
  type Word = b: seq<bool> | |b| == 32 witness Clear(32)

  const Zero: Word := Clear(32)

  function Clear(n: nat): (b: seq<bool>)
    ensures |b| == n && forall i :: 0 <= i < n ==> !b[i]
  {
    if n == 0 then [] else Clear(n - 1) + [false]
  }

  /** The word shifted left; bits leave it at the top. */
  function ShiftLeft(b: Word, s: nat): Word {
    seq(32, i requires 0 <= i < 32 => i >= s && b[i - s])
  }

  datatype Window = Window(newest: Seq32, bitmap: Word)

  const Fresh := Window(0, Zero)

  datatype Verdict = Newest | Late | Rejected

  /** What happens to one number. */
  function Judge(w: Window, n: Seq32): Verdict {
    if w.newest == n then Rejected
    else if w.newest > n && w.newest - n > 32 then Rejected
    else if w.newest > n then
      if w.bitmap[w.newest - n - 1] then Rejected else Late
    else Newest
  }

  /** The window after a number was judged. */
  function Advance(w: Window, n: Seq32): Window {
    match Judge(w, n)
    case Rejected => w
    case Late => w.(bitmap := w.bitmap[w.newest - n - 1 := true])
    case Newest =>
      var shift := n - w.newest;
      Window(n, if shift >= 32 then Zero else ShiftLeft(w.bitmap, shift))
  }

  // ---------------------------------------------------------------------
  // Whole runs within one key epoch
  // ---------------------------------------------------------------------

  /** The window after a run of numbers. */
  function After(run: seq<Seq32>): Window {
    if run == [] then Fresh else Advance(After(run[..|run| - 1]), run[|run| - 1])
  }

  /** The verdict on the k-th number of a run. */
  function VerdictAt(run: seq<Seq32>, k: nat): Verdict
    requires k < |run|
  {
    Judge(After(run[..k]), run[k])
  }

  /** A number was accepted late somewhere in the run. */
  ghost predicate LateIn(run: seq<Seq32>, n: Seq32) {
    exists k: nat :: k < |run| && run[k] == n && VerdictAt(run, k) == Late
  }

  lemma SameVerdict(run: seq<Seq32>, m: nat, j: nat)
    requires j < m <= |run|
    ensures VerdictAt(run[..m], j) == VerdictAt(run, j) && run[..m][j] == run[j]
  {
    assert run[..m][..j] == run[..j];
  }

  lemma LateSnoc(run: seq<Seq32>, n: Seq32)
    requires run != []
    ensures var k := |run| - 1;
            LateIn(run, n) <==> LateIn(run[..k], n) || (run[k] == n && VerdictAt(run, k) == Late)
  {
    hide After, Judge;
    var k := |run| - 1;
    if LateIn(run[..k], n) {
      var j: nat :| j < k && run[..k][j] == n && VerdictAt(run[..k], j) == Late;
      SameVerdict(run, k, j);
    }
    if LateIn(run, n) {
      var j: nat :| j < |run| && run[j] == n && VerdictAt(run, j) == Late;
      if j < k { SameVerdict(run, k, j); }
    }
  }

  /** Bit i of the bitmap is set exactly when number newest-1-i was accepted late. */
  ghost predicate Tracks(run: seq<Seq32>, w: Window) {
    && (forall i: nat :: i < 32 ==> (w.bitmap[i] <==> i < w.newest && LateIn(run, w.newest - 1 - i)))
    && (forall n: Seq32 :: LateIn(run, n) ==> n < w.newest)
  }

  lemma AfterSnoc(run: seq<Seq32>)
    requires run != []
    ensures After(run) == Advance(After(run[..|run| - 1]), run[|run| - 1])
  {}

  /** In every run the bitmap tells exactly the late numbers within reach. */
  lemma {:induction false} BitmapExact(run: seq<Seq32>)
    ensures Tracks(run, After(run))
  {
    if run != [] {
      var k := |run| - 1;
      var before, n := run[..k], run[k];
      BitmapExact(before);
      AfterSnoc(run);
      TracksStep(before, After(before), n, run);
    }
  }

  lemma TracksStep(before: seq<Seq32>, w: Window, n: Seq32, run: seq<Seq32>)
    requires run == before + [n] && w == After(before) && Tracks(before, w)
    ensures Tracks(run, Advance(w, n))
  {
    hide After;
    assert run[..|run| - 1] == before;
    assert VerdictAt(run, |run| - 1) == Judge(w, n);
    forall m: Seq32 ensures LateIn(run, m) <==> LateIn(before, m) || (n == m && Judge(w, n) == Late) {
      LateSnoc(run, m);
    }
  }

  // ---- what follows for every run

  /**
   Exactly when a number is accepted: it is newer than everything accepted, or
   it is at most 32 behind the newest and was not accepted late before.
   */
  lemma AcceptedIff(run: seq<Seq32>, k: nat)
    requires k < |run|
    ensures var w := After(run[..k]);
            && (VerdictAt(run, k) == Newest <==> run[k] > w.newest)
            && (VerdictAt(run, k) == Late <==>
                  run[k] < w.newest && w.newest - run[k] <= 32 && !LateIn(run[..k], run[k]))
  {
    hide After;
    BitmapExact(run[..k]);
    var w, n := After(run[..k]), run[k];
    if n < w.newest && w.newest - n <= 32 {
      var i := w.newest - n - 1;
      assert w.bitmap[i] <==> LateIn(run[..k], w.newest - 1 - i);
    }
  }

  /** The newest number never goes back. */
  lemma {:induction false} NewestGrows(run: seq<Seq32>, i: nat, j: nat)
    requires i <= j <= |run|
    ensures After(run[..i]).newest <= After(run[..j]).newest
    decreases j - i
  {
    if i < j {
      NewestGrows(run, i, j - 1);
      assert run[..j][..j - 1] == run[..j - 1];
      AfterSnoc(run[..j]);
    }
  }

  lemma NewestAfter(run: seq<Seq32>, k: nat)
    requires k < |run|
    ensures VerdictAt(run, k) == Newest ==> After(run[..k + 1]).newest == run[k]
    ensures VerdictAt(run, k) == Late ==> run[k] < After(run[..k]).newest
  {
    assert run[..k + 1][..k] == run[..k];
    AfterSnoc(run[..k + 1]);
  }

  /** Numbers accepted as newest strictly increase. */
  lemma NewestIncrease(run: seq<Seq32>, i: nat, j: nat)
    requires i < j < |run| && VerdictAt(run, i) == Newest && VerdictAt(run, j) == Newest
    ensures run[i] < run[j]
  {
    hide After, Judge;
    NewestAfter(run, i);
    NewestGrows(run, i + 1, j);
    AcceptedIff(run, j);
  }

  /** A number accepted late is rejected ever after. */
  lemma LateOnce(run: seq<Seq32>, i: nat, j: nat)
    requires i < j < |run| && run[i] == run[j] && VerdictAt(run, i) == Late
    ensures VerdictAt(run, j) == Rejected
  {
    hide After, Judge;
    SameVerdict(run, j, i);
    assert LateIn(run[..j], run[j]) by { assert run[..j][i] == run[j] && VerdictAt(run[..j], i) == Late; }
    AcceptedIff(run, j);
    NewestAfter(run, i);
    NewestGrows(run, i, j);
  }

  ghost predicate AcceptedAt(run: seq<Seq32>, k: nat)
    requires k < |run|
  {
    VerdictAt(run, k) != Rejected
  }

  /** No number is accepted a third time. */
  lemma AtMostTwice(run: seq<Seq32>, i: nat, j: nat, k: nat)
    requires i < j < k < |run| && run[i] == run[j] == run[k]
    requires AcceptedAt(run, i) && AcceptedAt(run, j)
    ensures VerdictAt(run, k) == Rejected
  {
    hide After, Judge;
    if VerdictAt(run, i) == Late {
      LateOnce(run, i, j);
    } else if VerdictAt(run, j) == Newest {
      NewestIncrease(run, i, j);
    } else {
      LateOnce(run, j, k);
    }
  }

  /**
   Exactly when a replay gets through: the number was accepted as the newest, has
   been superseded by another one at most 32 ahead, and was not replayed before.
   */
  lemma ReplayIff(run: seq<Seq32>, i: nat, j: nat)
    requires i < j < |run| && run[i] == run[j] && AcceptedAt(run, i)
    ensures var newest := After(run[..j]).newest;
            AcceptedAt(run, j) <==>
              newest > run[j] && newest - run[j] <= 32 && !LateIn(run[..j], run[j])
  {
    hide After, Judge;
    AcceptedIff(run, j);
    NewestAfter(run, i);
    NewestGrows(run, i, j);
    NewestGrows(run, i + 1, j);
    AcceptedIff(run, i);
  }

  /** A replay that is accepted: 5 arrives, then 6, then 5 again. */
  lemma ReplayExample()
    ensures var run := [5, 6, 5]; AcceptedAt(run, 0) && AcceptedAt(run, 1) && AcceptedAt(run, 2)
  {
    var run: seq<Seq32> := [5, 6, 5];
    assert run[..0] == [] && run[..1] == [5] && run[..2] == [5, 6];
    assert [5, 6][..1] == [5];
    assert After([5]) == Window(5, ShiftLeft(Zero, 5)) by { assert [5][..0] == []; }
    assert After([5, 6]).newest == 6 && !After([5, 6]).bitmap[0];
  }
}
