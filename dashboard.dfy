/**
 * The figures the executive dashboard (components/DashboardView.tsx) derives
 * from the phase list: the phase in focus, the number of completed phases,
 * the overall progress, the two slices of the completion chart and the short
 * lists shown on the focus card.
 */
module DashboardView {
  import opened Types
  import Rounding
  import Constants
  import App

  // ---------------------------------------------------------------------
  // The phase in focus

  /** Index of the first Active phase, or |ps| when no phase is Active. */
  function FirstActive(ps: seq<ProjectPhase>): (k: nat)
    ensures k <= |ps|
    ensures k < |ps| ==> ps[k].status == Active
    ensures forall j :: 0 <= j < k ==> ps[j].status != Active
  {
    if |ps| == 0 then 0
    else if ps[0].status == Active then 0
    else 1 + FirstActive(ps[1..])
  }

  /** `phases.find(p => p.status === Active) || phases[0]`. */
  function ActivePhase(ps: seq<ProjectPhase>): (p: ProjectPhase)
    requires |ps| > 0
    ensures p in ps
    ensures (exists k :: 0 <= k < |ps| && ps[k].status == Active) ==> p.status == Active
    ensures (forall k :: 0 <= k < |ps| ==> ps[k].status != Active) ==> p == ps[0]
  {
    var k := FirstActive(ps);
    if k < |ps| then ps[k] else ps[0]
  }

  /** The phase in focus is the Active phase that no other Active phase precedes. */
  lemma ActivePhaseIsFirst(ps: seq<ProjectPhase>, k: nat)
    requires k < |ps| && ps[k].status == Active
    requires forall j :: 0 <= j < k ==> ps[j].status != Active
    ensures ActivePhase(ps) == ps[k]
  {
    var f := FirstActive(ps);
    assert f <= k;
  }

  // ---------------------------------------------------------------------
  // Completed phases

  /** `phases.filter(p => p.status === Completed)`, order kept. */
  function CompletedList(ps: seq<ProjectPhase>): (r: seq<ProjectPhase>)
    ensures |r| <= |ps|
    ensures forall k :: 0 <= k < |r| ==> r[k].status == Completed && r[k] in ps
    ensures forall k :: 0 <= k < |ps| && ps[k].status == Completed ==> ps[k] in r
  {
    if |ps| == 0 then []
    else if ps[0].status == Completed then [ps[0]] + CompletedList(ps[1..])
    else CompletedList(ps[1..])
  }

  /** `completedPhases`: the length of the filtered list. */
  function CompletedPhases(ps: seq<ProjectPhase>): (n: nat)
    ensures n <= |ps|
    ensures n == 0 <==> forall k :: 0 <= k < |ps| ==> ps[k].status != Completed
  {
    var r := CompletedList(ps);
    assert |r| > 0 ==> r[0] in ps;
    |r|
  }

  /** Every phase is completed exactly when the count reaches the list's length. */
  lemma {:induction false} AllCompleted(ps: seq<ProjectPhase>)
    ensures CompletedPhases(ps) == |ps| <==> forall k :: 0 <= k < |ps| ==> ps[k].status == Completed
  {
    if |ps| > 0 {
      AllCompleted(ps[1..]);
      if ps[0].status != Completed {
        assert |CompletedList(ps[1..])| <= |ps| - 1;
      } else {
        assert forall k :: 1 <= k < |ps| ==> ps[k] == ps[1..][k - 1];
      }
    }
  }

  /** Counting the completed phases of two lists one after the other adds up. */
  lemma {:induction false} CompletedConcat(a: seq<ProjectPhase>, b: seq<ProjectPhase>)
    ensures CompletedList(a + b) == CompletedList(a) + CompletedList(b)
  {
    if |a| > 0 {
      assert (a + b)[1..] == a[1..] + b;
      CompletedConcat(a[1..], b);
    } else {
      assert a + b == b;
    }
  }

  // ---------------------------------------------------------------------
  // Overall progress and the completion chart

  /** `phases.reduce((acc, curr) => acc + curr.progress, 0)`. */
  function SumProgress(ps: seq<ProjectPhase>): int {
    if |ps| == 0 then 0 else ps[0].progress + SumProgress(ps[1..])
  }

  /** The sum over two lists one after the other adds up. */
  lemma {:induction false} SumConcat(a: seq<ProjectPhase>, b: seq<ProjectPhase>)
    ensures SumProgress(a + b) == SumProgress(a) + SumProgress(b)
  {
    if |a| > 0 {
      assert (a + b)[1..] == a[1..] + b;
      SumConcat(a[1..], b);
    } else {
      assert a + b == b;
    }
  }

  predicate ProgressInRange(ps: seq<ProjectPhase>) {
    forall k :: 0 <= k < |ps| ==> 0 <= ps[k].progress <= 100
  }

  /** Progress values in [lo, hi] keep their sum within |ps| times those bounds. */
  lemma {:induction false} SumBetween(ps: seq<ProjectPhase>, lo: int, hi: int)
    requires forall k :: 0 <= k < |ps| ==> lo <= ps[k].progress <= hi
    ensures lo * |ps| <= SumProgress(ps) <= hi * |ps|
  {
    if |ps| > 0 {
      var tail := ps[1..];
      assert forall k :: 0 <= k < |tail| ==> tail[k] == ps[k + 1];
      SumBetween(tail, lo, hi);
      assert lo * |ps| == lo + lo * |tail| && hi * |ps| == hi + hi * |tail|;
    }
  }

  /** `Math.round(sum / phases.length)`: the rounded mean of the phase progress. */
  function OverallProgress(ps: seq<ProjectPhase>): (r: int)
    requires |ps| > 0
    ensures 2 * |ps| * r <= 2 * SumProgress(ps) + |ps| < 2 * |ps| * (r + 1)
    ensures ProgressInRange(ps) ==> 0 <= r <= 100
  {
    MeanInRange(ps);
    Rounding.RoundDiv(SumProgress(ps), |ps|)
  }

  lemma MeanInRange(ps: seq<ProjectPhase>)
    requires |ps| > 0
    ensures ProgressInRange(ps) ==> 0 <= Rounding.RoundDiv(SumProgress(ps), |ps|) <= 100
  {
    if ProgressInRange(ps) {
      SumBetween(ps, 0, 100);
      Rounding.RoundDivBetween(SumProgress(ps), |ps|, 0, 100);
    }
  }

  /** Phases that all stand at the same progress have that progress overall. */
  lemma OverallUniform(ps: seq<ProjectPhase>, v: int)
    requires |ps| > 0
    requires forall k :: 0 <= k < |ps| ==> ps[k].progress == v
    ensures OverallProgress(ps) == v
  {
    SumBetween(ps, v, v);
    Rounding.RoundDivUnique(SumProgress(ps), |ps|, v);
  }

  /** The overall progress lies between the least and greatest phase progress. */
  lemma OverallBetween(ps: seq<ProjectPhase>, lo: int, hi: int)
    requires |ps| > 0
    requires forall k :: 0 <= k < |ps| ==> lo <= ps[k].progress <= hi
    ensures lo <= OverallProgress(ps) <= hi
  {
    SumBetween(ps, lo, hi);
    Rounding.RoundDivBetween(SumProgress(ps), |ps|, lo, hi);
  }

  datatype Slice = Slice(name: string, value: int)

  /** `pieData`: the completed share and the rest of the 100%. */
  function PieData(ps: seq<ProjectPhase>): (r: seq<Slice>)
    requires |ps| > 0
    ensures |r| == 2
    ensures r[0].name == "Completed" && r[1].name == "Remaining"
    ensures r[0].value == OverallProgress(ps)
    ensures r[0].value + r[1].value == 100
    ensures ProgressInRange(ps) ==> 0 <= r[0].value <= 100 && 0 <= r[1].value <= 100
  {
    var o := OverallProgress(ps);
    [Slice("Completed", o), Slice("Remaining", 100 - o)]
  }

  /** The seed's rounded mean: 15 / 6 = 2.5, and a half rounds up to 3. */
  lemma SeedOverall()
    ensures OverallProgress(Constants.SeedPhases()) == 3
  {
    var ps := Constants.SeedPhases();
    Constants.SeedShape();
    SeedSum(ps);
    Rounding.RoundDivUnique(15, 6, 3);
  }

  lemma SeedSum(ps: seq<ProjectPhase>)
    requires |ps| == 6
    requires ps[0].progress == 15
    requires forall k :: 1 <= k < 6 ==> ps[k].progress == 0
    ensures SumProgress(ps) == 15
  {
    var tail := ps[1..];
    assert forall k :: 0 <= k < |tail| ==> tail[k].progress == 0;
    SumBetween(tail, 0, 0);
  }

  /** The seed's focus card shows phase 1, the only Active phase. */
  lemma SeedFocus()
    ensures ActivePhase(Constants.SeedPhases()).id == 1
  {
    Constants.SeedShape();
    Constants.SeedIds();
    ActivePhaseIsFirst(Constants.SeedPhases(), 0);
  }

  // ---------------------------------------------------------------------
  // The focus card's short lists

  /** `s.slice(0, n)`: the first n elements, or all of s when it is shorter. */
  function SliceFront<T>(s: seq<T>, n: nat): (r: seq<T>)
    ensures |r| <= n && |r| <= |s|
    ensures r <= s
    ensures |s| <= n ==> r == s
    ensures n <= |s| ==> |r| == n
  {
    if |s| <= n then s else s[..n]
  }

  /** `activePhase.keyActivities.slice(0, 3)`. */
  function ActivityPreview(ps: seq<ProjectPhase>): (r: seq<Activity>)
    requires |ps| > 0
    ensures |r| <= 3
    ensures r <= ActivePhase(ps).keyActivities
    ensures |r| == 3 || r == ActivePhase(ps).keyActivities
  {
    SliceFront(ActivePhase(ps).keyActivities, 3)
  }

  /** `activePhase.deliverables.slice(0, 2)`. */
  function DeliverablePreview(ps: seq<ProjectPhase>): (r: seq<string>)
    requires |ps| > 0
    ensures |r| <= 2
    ensures r <= ActivePhase(ps).deliverables
    ensures |r| == 2 || r == ActivePhase(ps).deliverables
  {
    SliceFront(ActivePhase(ps).deliverables, 2)
  }

  // ---------------------------------------------------------------------
  // How the activity mutator moves the dashboard

  /**
   * Ticking or dating an activity never changes a phase's status: the phase
   * in focus keeps its id and the completed-phase count stays the same.
   */
  lemma UpdateKeepsStatusFigures(ps: seq<ProjectPhase>, phaseId: int, i: nat, u: App.ActivityUpdate)
    requires App.IndexValidFor(ps, phaseId, i)
    requires |ps| > 0
    ensures FirstActive(App.UpdatePhases(ps, phaseId, i, u)) == FirstActive(ps)
    ensures ActivePhase(App.UpdatePhases(ps, phaseId, i, u)).id == ActivePhase(ps).id
    ensures CompletedPhases(App.UpdatePhases(ps, phaseId, i, u)) == CompletedPhases(ps)
  {
    var qs := App.UpdatePhases(ps, phaseId, i, u);
    forall k | 0 <= k < |ps| ensures qs[k].status == ps[k].status {
      if ps[k].id == phaseId {
        assert qs[k] == App.UpdatePhase(ps[k], i, u);
      }
    }
    SameStatusFigures(ps, qs);
  }

  /** Two lists whose phases agree on status pick the same focus and count. */
  lemma {:induction false} SameStatusFigures(ps: seq<ProjectPhase>, qs: seq<ProjectPhase>)
    requires |ps| == |qs|
    requires forall k :: 0 <= k < |ps| ==> qs[k].status == ps[k].status
    ensures FirstActive(qs) == FirstActive(ps)
    ensures |CompletedList(qs)| == |CompletedList(ps)|
  {
    if |ps| > 0 {
      assert forall k :: 0 <= k < |ps| - 1 ==> qs[1..][k].status == ps[1..][k].status;
      SameStatusFigures(ps[1..], qs[1..]);
    }
  }
}
