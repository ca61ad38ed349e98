/**
 * The application shell (App.tsx): the phase store, the activity mutator
 * `updateActivity` with its progress recomputation, and the view router
 * `renderContent`.
 */
module App {
  import opened Types
  import opened Rounding
  import Constants

  // ---------------------------------------------------------------------
  // The activity mutator

  /**
   * The two field updates the schedule view issues: the checkbox sets
   * `completed`, the date input sets `dueDate` (possibly to "").
   */
  datatype ActivityUpdate = SetCompleted(done: bool) | SetDueDate(date: string)

  /** `{ ...activity, [field]: value }` for the two fields callers use. */
  function Apply(a: Activity, u: ActivityUpdate): (r: Activity)
    ensures r.name == a.name && r.timeline == a.timeline
    ensures u.SetCompleted? ==> r.completed == u.done && r.dueDate == a.dueDate
    ensures u.SetDueDate? ==> r.dueDate == Some(u.date) && r.completed == a.completed
  {
    match u
    case SetCompleted(done) => a.(completed := done)
    case SetDueDate(date) => a.(dueDate := Some(date))
  }

  /** `activities.filter(a => a.completed).length`. */
  function CountCompleted(acts: seq<Activity>): (n: nat)
    ensures n <= |acts|
    ensures n == 0 <==> forall k :: 0 <= k < |acts| ==> !acts[k].completed
    ensures n == |acts| <==> forall k :: 0 <= k < |acts| ==> acts[k].completed
  {
    if |acts| == 0 then 0
    else (if acts[0].completed then 1 else 0) + CountCompleted(acts[1..])
  }

  /** Replacing one activity changes the count by what that one contributes. */
  lemma {:induction false} CountCompletedReplace(acts: seq<Activity>, i: nat, a: Activity)
    requires i < |acts|
    ensures CountCompleted(acts[i := a]) ==
      CountCompleted(acts) - (if acts[i].completed then 1 else 0) + (if a.completed then 1 else 0)
  {
    if i > 0 {
      assert acts[i := a][1..] == acts[1..][i - 1 := a];
      CountCompletedReplace(acts[1..], i - 1, a);
    } else {
      assert acts[i := a][1..] == acts[1..];
    }
  }

  /**
   * `Math.round((completed / total) * 100)`: the rounded percentage of
   * completed activities. A phase with no activity would give NaN.
   */
  function Progress(acts: seq<Activity>): (r: int)
    requires |acts| > 0
    ensures 0 <= r <= 100
    ensures 2 * |acts| * r <= 200 * CountCompleted(acts) + |acts| < 2 * |acts| * (r + 1)
  {
    Percent(CountCompleted(acts), |acts|)
  }

  /** The relation the mutator establishes: progress derives from the activities. */
  predicate ProgressDerived(p: ProjectPhase)
    ensures ProgressDerived(p) ==> 0 <= p.progress <= 100
  {
    |p.keyActivities| > 0 && p.progress == Progress(p.keyActivities)
  }

  /** Every phase the update touches has an activity at the index. */
  predicate IndexValidFor(ps: seq<ProjectPhase>, phaseId: int, i: nat) {
    forall k :: 0 <= k < |ps| && ps[k].id == phaseId ==> i < |ps[k].keyActivities|
  }

  /** The body of the `map` callback for a phase whose id matches. */
  function UpdatePhase(p: ProjectPhase, i: nat, u: ActivityUpdate): (r: ProjectPhase)
    requires i < |p.keyActivities|
    ensures r.id == p.id && r.name == p.name && r.focusArea == p.focusArea
    ensures r.duration == p.duration && r.deliverables == p.deliverables
    ensures r.status == p.status
    ensures |r.keyActivities| == |p.keyActivities|
    ensures r.keyActivities[i] == Apply(p.keyActivities[i], u)
    ensures forall j :: 0 <= j < |p.keyActivities| && j != i ==> r.keyActivities[j] == p.keyActivities[j]
    ensures ProgressDerived(r)
  {
    var acts := p.keyActivities[i := Apply(p.keyActivities[i], u)];
    p.(keyActivities := acts, progress := Progress(acts))
  }

  /** `updateActivity(phaseId, activityIndex, field, value)` on the phase list. */
  function UpdatePhases(ps: seq<ProjectPhase>, phaseId: int, i: nat, u: ActivityUpdate): (r: seq<ProjectPhase>)
    requires IndexValidFor(ps, phaseId, i)
    ensures |r| == |ps|
    ensures forall k :: 0 <= k < |ps| ==> r[k].id == ps[k].id
    ensures forall k :: 0 <= k < |ps| && ps[k].id != phaseId ==> r[k] == ps[k]
    ensures forall k :: 0 <= k < |ps| && ps[k].id == phaseId ==> r[k] == UpdatePhase(ps[k], i, u)
    ensures IndexValidFor(r, phaseId, i)
  {
    seq(|ps|, k requires 0 <= k < |ps| =>
      if ps[k].id == phaseId then UpdatePhase(ps[k], i, u) else ps[k])
  }

  /** An id that no phase carries leaves the list as it is. */
  lemma UpdateUnknownId(ps: seq<ProjectPhase>, phaseId: int, i: nat, u: ActivityUpdate)
    requires forall k :: 0 <= k < |ps| ==> ps[k].id != phaseId
    ensures UpdatePhases(ps, phaseId, i, u) == ps
  {
  }

  /** Every updated phase ends with progress derived from its activities. */
  lemma UpdateDerivesProgress(ps: seq<ProjectPhase>, phaseId: int, i: nat, u: ActivityUpdate)
    requires IndexValidFor(ps, phaseId, i)
    ensures forall k :: 0 <= k < |ps| && ps[k].id == phaseId ==>
      ProgressDerived(UpdatePhases(ps, phaseId, i, u)[k])
    ensures (forall k :: 0 <= k < |ps| ==> ProgressDerived(ps[k])) ==>
      forall k :: 0 <= k < |ps| ==> ProgressDerived(UpdatePhases(ps, phaseId, i, u)[k])
  {
  }

  lemma ApplyIdempotent(a: Activity, u: ActivityUpdate)
    ensures Apply(Apply(a, u), u) == Apply(a, u)
  {
  }

  lemma UpdatePhaseIdempotent(p: ProjectPhase, i: nat, u: ActivityUpdate)
    requires i < |p.keyActivities|
    ensures UpdatePhase(UpdatePhase(p, i, u), i, u) == UpdatePhase(p, i, u)
  {
    var once := UpdatePhase(p, i, u);
    ApplyIdempotent(p.keyActivities[i], u);
    assert once.keyActivities[i := Apply(once.keyActivities[i], u)] == once.keyActivities;
  }

  /** Issuing the same update twice has the effect of issuing it once. */
  lemma UpdateIdempotent(ps: seq<ProjectPhase>, phaseId: int, i: nat, u: ActivityUpdate)
    requires IndexValidFor(ps, phaseId, i)
    ensures UpdatePhases(UpdatePhases(ps, phaseId, i, u), phaseId, i, u) == UpdatePhases(ps, phaseId, i, u)
  {
    var once := UpdatePhases(ps, phaseId, i, u);
    var twice := UpdatePhases(once, phaseId, i, u);
    forall k | 0 <= k < |ps| ensures twice[k] == once[k] {
      if ps[k].id == phaseId {
        UpdatePhaseIdempotent(ps[k], i, u);
      }
    }
  }

  /** Ticking an unticked activity adds exactly one to the completed count. */
  lemma CompletingAddsOne(p: ProjectPhase, i: nat)
    requires i < |p.keyActivities| && !p.keyActivities[i].completed
    ensures CountCompleted(UpdatePhase(p, i, SetCompleted(true)).keyActivities)
      == CountCompleted(p.keyActivities) + 1
  {
    CountCompletedReplace(p.keyActivities, i, Apply(p.keyActivities[i], SetCompleted(true)));
  }

  /** A due-date update never moves progress off the derived value. */
  lemma DueDateKeepsCount(p: ProjectPhase, i: nat, date: string)
    requires i < |p.keyActivities|
    ensures CountCompleted(UpdatePhase(p, i, SetDueDate(date)).keyActivities)
      == CountCompleted(p.keyActivities)
    ensures ProgressDerived(p) ==> UpdatePhase(p, i, SetDueDate(date)).progress == p.progress
  {
    CountCompletedReplace(p.keyActivities, i, Apply(p.keyActivities[i], SetDueDate(date)));
  }

  // ---------------------------------------------------------------------
  // The seed list against the derived-progress relation

  /**
   * Phases 2 to 6 of the seed satisfy the relation; phase 1 does not: it
   * shows 15% with none of its four activities done.
   */
  lemma SeedProgressMismatch()
    ensures !ProgressDerived(Constants.SeedPhases()[0])
    ensures Progress(Constants.SeedPhases()[0].keyActivities) == 0
    ensures forall k :: 1 <= k < 6 ==> ProgressDerived(Constants.SeedPhases()[k])
  {
    Constants.SeedShape();
    forall k | 0 <= k < 6 ensures Progress(Constants.SeedPhases()[k].keyActivities) == 0 {
      NothingDoneIsZero(Constants.SeedPhases()[k].keyActivities);
    }
  }

  /** No completed activity means 0%, however long the list. */
  lemma NothingDoneIsZero(acts: seq<Activity>)
    requires 0 < |acts|
    requires forall j :: 0 <= j < |acts| ==> !acts[j].completed
    ensures Progress(acts) == 0
  {
    RoundDivUnique(0, |acts|, 0);
  }

  /** Ticking the first activity of seed phase 1 sets its progress to 25%. */
  lemma SeedFirstTick()
    ensures UpdatePhases(Constants.SeedPhases(), 1, 0, SetCompleted(true))[0].progress == 25
  {
    var ps := Constants.SeedPhases();
    Constants.SeedShape();
    CompletingAddsOne(ps[0], 0);
    var acts := UpdatePhase(ps[0], 0, SetCompleted(true)).keyActivities;
    assert CountCompleted(acts) == 1;
    RoundDivUnique(100, 4, 25);
  }

  // ---------------------------------------------------------------------
  // The view router

  /** The view `renderContent` returns, with the props it is given. */
  datatype Screen =
    | DashboardScreen(phases: seq<ProjectPhase>)
    | ScheduleScreen(phases: seq<ProjectPhase>)
    | BriefScreen
    | AssistantScreen(phases: seq<ProjectPhase>)

  /** The `switch` in `renderContent`; any other value falls back to the dashboard. */
  function RenderContent(view: string, phases: seq<ProjectPhase>): (r: Screen)
    ensures r.BriefScreen? <==> view == "brief"
    ensures !r.BriefScreen? ==> r.phases == phases
    ensures r.DashboardScreen? <==> view != "schedule" && view != "brief" && view != "assistant"
  {
    if view == "dashboard" then DashboardScreen(phases)
    else if view == "schedule" then ScheduleScreen(phases)
    else if view == "brief" then BriefScreen
    else if view == "assistant" then AssistantScreen(phases)
    else DashboardScreen(phases)
  }

  /** The screen each navigation target names. */
  function ScreenFor(v: ViewState, phases: seq<ProjectPhase>): Screen {
    match v
    case Dashboard => DashboardScreen(phases)
    case Schedule => ScheduleScreen(phases)
    case Brief => BriefScreen
    case Assistant => AssistantScreen(phases)
  }

  /** Each of the four names selects its own view, and no two share one. */
  lemma RenderKnownViews(v: ViewState, w: ViewState, phases: seq<ProjectPhase>)
    ensures RenderContent(v.Name(), phases) == ScreenFor(v, phases)
    ensures RenderContent(v.Name(), phases) == RenderContent(w.Name(), phases) ==> v == w
  {
  }

  /** Any string that names no view renders the dashboard. */
  lemma RenderUnknownView(view: string, phases: seq<ProjectPhase>)
    requires forall v: ViewState :: view != v.Name()
    ensures RenderContent(view, phases) == DashboardScreen(phases)
  {
    assert view != Dashboard.Name() && view != Schedule.Name();
    assert view != Brief.Name() && view != Assistant.Name();
  }

  // ---------------------------------------------------------------------
  // The component's state

  /** The state `App` keeps with `useState`: the current view and the phases. */
  class AppState {
    var view: string
    var phases: seq<ProjectPhase>

    /** The initial render: the dashboard over the seed list. */
    constructor ()
      ensures view == ViewState.Dashboard.Name()
      ensures phases == Constants.SeedPhases()
    {
      view := "dashboard";
      phases := Constants.SeedPhases();
    }

    /** `updateActivity`: replaces the phase list through `setPhases`. */
    method UpdateActivity(phaseId: int, i: nat, u: ActivityUpdate)
      requires IndexValidFor(phases, phaseId, i)
      modifies this
      ensures phases == UpdatePhases(old(phases), phaseId, i, u)
      ensures view == old(view)
    {
      phases := UpdatePhases(phases, phaseId, i, u);
    }

    /** `setView(item.id as ViewState)`: the cast checks nothing. */
    method SetView(id: string)
      modifies this
      ensures view == id
      ensures phases == old(phases)
    {
      view := id;
    }

    /** The screen for the current view: every screen but the brief gets the live phases. */
    function Render(): (r: Screen)
      reads this
      ensures r.BriefScreen? <==> view == ViewState.Brief.Name()
      ensures !r.BriefScreen? ==> r.phases == phases
      ensures r == RenderContent(view, phases)
    {
      RenderContent(view, phases)
    }
  }
}
