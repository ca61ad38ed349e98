/**
 * The seed plan and the text the assistant is grounded on (constants.ts):
 * `PHASES`, the project name and goal, and `generateProjectContext`.
 */
module Constants {
  import opened Types
  import opened Text

  const ProjectName: string := "Google Workspace AI Enablement"
  const ProjectGoal: string :=
    "Equip all bank users with practical, day-to-day proficiency in Google Workspace AI tools "
    + "to improve productivity, enhance output quality, and reduce manual workload."

  function Todo(name: string, timeline: string): Activity {
    Activity(name, timeline, false, None)
  }

  /** The six phases the store starts from, as written in the seed list. */
  function SeedPhases(): (ps: seq<ProjectPhase>)
    ensures |ps| == 6
  {
    [ ProjectPhase(1, "Phase 1: Planning", "Planning & Discovery", "1\U{2013}2 Weeks",
        [ Todo("Sync with Learning & OD", "Day 1-3"),
          Todo("Survey leads for 'AI Wishlist'", "Day 4-7"),
          Todo("Confirm Google trainer", "Day 5"),
          Todo("Identify pain points", "Day 8-10") ],
        ["Scope Document signed off", "Curriculum Outline approved"],
        Active, 15),
      ProjectPhase(2, "Phase 2: Development", "Content Development", "1\U{2013}2 Weeks",
        [ Todo("Build decks & demo scripts", "Week 3"),
          Todo("Create banking scenarios", "Week 3"),
          Todo("Recruit Pilot Group (IT, Ops, HR)", "Week 4") ],
        ["Training Materials Draft 1.0", "Pilot Group confirmed"],
        Pending, 0),
      ProjectPhase(3, "Phase 3: Pilot", "Pilot Program", "1 Week",
        [ Todo("Run Pilot Session", "Week 5, Tuesday"),
          Todo("Capture Q&A/confusion points", "Week 5, Wed"),
          Todo("Assess comprehension", "Week 5, Friday") ],
        ["Session delivered", "Feedback Report compiled"],
        Pending, 0),
      ProjectPhase(4, "Phase 4: Refinement", "Curriculum Refinement", "1\U{2013}2 Weeks",
        [ Todo("Update content based on pilot", "Week 6"),
          Todo("Finalize rollout schedule", "Week 6"),
          Todo("Develop dept-specific examples", "Week 7") ],
        ["Final Training Materials (2.0)", "Support Guides (PDFs) ready"],
        Pending, 0),
      ProjectPhase(5, "Phase 5: Rollout", "Full Deployment", "2\U{2013}4 Weeks",
        [ Todo("Wave 1: Ops & Finance", "Week 8-9"),
          Todo("Wave 2: HR, Marketing, Sales", "Week 10-11"),
          Todo("Track participation", "Ongoing") ],
        ["Training completed", "Attendance > 85%"],
        Pending, 0),
      ProjectPhase(6, "Phase 6: Sustainment", "Review & Sustainment", "1 Week",
        [ Todo("Analyze adoption data", "Month 3"),
          Todo("Plan advanced sessions", "Month 3"),
          Todo("Identify Super Users", "Ongoing") ],
        ["Final Project Report", "Continuous Learning Plan"],
        Pending, 0)
    ]
  }

  // ---------------------------------------------------------------------
  // The context formatter

  /** `a.dueDate || 'Not Set'`: an absent or empty date is falsy. */
  function DueText(due: Option<string>): (r: string)
    ensures r == "Not Set" <==> due == None || due == Some("") || due == Some("Not Set")
    ensures due.Some? && due.value != "" ==> r == due.value
  {
    match due
    case Some(d) => if d == "" then "Not Set" else d
    case None => "Not Set"
  }

  /** The completion marker: `DONE` for a completed activity, `PENDING` otherwise. */
  function Marker(done: bool): (r: string)
    ensures r == "DONE" || r == "PENDING"
    ensures r == "DONE" <==> done
  {
    if done then "DONE" else "PENDING"
  }

  /** One activity: `name [DONE|PENDING] (Due: date, Timeline: timeline)`. */
  function ActivityText(a: Activity): (r: string)
    ensures var n, m := |a.name| + 2, |Marker(a.completed)|;
      && |r| == n + m + |ActivityTail(a)|
      && r[..n] == a.name + " ["
      && r[n..n + m] == Marker(a.completed)
      && r[n + m..] == ActivityTail(a)
    ensures SingleLineActivity(a) ==> '\n' !in r
  {
    var head, m, tail := a.name + " [", Marker(a.completed), ActivityTail(a);
    Concat3(head, m, tail);
    head + m + tail
  }

  /** What follows the marker: the due text, or `Not Set`, and the timeline. */
  function ActivityTail(a: Activity): (r: string)
    ensures SingleLineActivity(a) ==> '\n' !in r
  {
    "] (Due: " + DueText(a.dueDate) + ", Timeline: " + a.timeline + ")"
  }

  function ActivityTexts(acts: seq<Activity>): (r: seq<string>)
    ensures |r| == |acts|
    ensures forall k :: 0 <= k < |acts| ==> r[k] == ActivityText(acts[k])
  {
    if |acts| == 0 then [] else [ActivityText(acts[0])] + ActivityTexts(acts[1..])
  }

  /** The first line of a phase's block (it ends in a space). */
  function HeaderLine(p: ProjectPhase): (r: string)
    ensures var n, m := 8 + |IntToString(p.id)|, |p.duration| + 3 + |p.focusArea|;
      && |r| == n + m + |StatusText(p.status)|
      && r[..n] == "Phase " + IntToString(p.id) + " ("
      && r[n..n + m] == p.duration + "): " + p.focusArea
      && r[n + m..] == StatusText(p.status)
    ensures '\n' !in p.duration && '\n' !in p.focusArea ==> '\n' !in r
  {
    var id := IntToString(p.id);
    var head, mid, tail := "Phase " + id + " (", p.duration + "): " + p.focusArea, StatusText(p.status);
    assert '\n' !in head by {
      assert '\n' !in id;
    }
    Concat3(head, mid, tail);
    NoneInParts(head, mid, tail, '\n');
    head + mid + tail
  }

  /** The end of the header line: `. Status: <status>. `. */
  function StatusText(s: PhaseStatus): (r: string)
    ensures |r| == 10 + |s.Name()| + 2
    ensures '\n' !in r
  {
    assert '\n' !in s.Name();
    ". Status: " + s.Name() + ". "
  }

  /** The second line: every activity, joined with ", " (it ends in a space). */
  function ActivitiesLine(p: ProjectPhase): (r: string)
    ensures |r| >= 14
    ensures r[..12] == "Activities: " && r[|r| - 2..] == ". "
    ensures r[12..|r| - 2] == Join(ActivityTexts(p.keyActivities), ", ")
  {
    var body := Join(ActivityTexts(p.keyActivities), ", ");
    var r := "Activities: " + body + ". ";
    assert r[..12] == "Activities: ";
    assert r[12..|r| - 2] == body;
    r
  }

  /** The third line: the deliverables, joined with ", ". */
  function DeliverablesLine(p: ProjectPhase): (r: string)
    ensures |r| >= 14
    ensures r[..14] == "Deliverables: "
    ensures r[14..] == Join(p.deliverables, ", ")
    ensures |p.deliverables| == 0 ==> r == "Deliverables: "
    ensures |p.deliverables| == 1 ==> r == "Deliverables: " + p.deliverables[0]
  {
    var r := "Deliverables: " + Join(p.deliverables, ", ");
    assert r[..14] == "Deliverables: ";
    assert r[14..] == Join(p.deliverables, ", ");
    r
  }

  /** The template literal that renders one phase. */
  function PhaseBlock(p: ProjectPhase): (r: string)
    ensures SingleLineFields(p) ==> Split(r, '\n') == [HeaderLine(p), ActivitiesLine(p), DeliverablesLine(p)]
  {
    BlockLines(p);
    HeaderLine(p) + "\n" + ActivitiesLine(p) + "\n" + DeliverablesLine(p)
  }

  lemma BlockLines(p: ProjectPhase)
    ensures SingleLineFields(p) ==>
      var h, a, d := HeaderLine(p), ActivitiesLine(p), DeliverablesLine(p);
      Split(h + "\n" + a + "\n" + d, '\n') == [h, a, d]
  {
    if SingleLineFields(p) {
      PhaseLinesSingle(p);
      ThreeLines(HeaderLine(p), ActivitiesLine(p), DeliverablesLine(p));
    }
  }

  /** Three line-free texts joined by line breaks split back into the three. */
  lemma ThreeLines(h: string, a: string, d: string)
    requires '\n' !in h && '\n' !in a && '\n' !in d
    ensures Split(h + "\n" + a + "\n" + d, '\n') == [h, a, d]
  {
    SplitJoin([h, a, d], '\n');
    assert Join([h, a, d], "\n") == h + "\n" + a + "\n" + d by {
      assert [h, a, d][1..] == [a, d];
      assert [a, d][1..] == [d];
    }
  }

  function PhaseBlocks(ps: seq<ProjectPhase>): (r: seq<string>)
    ensures |r| == |ps|
    ensures forall k :: 0 <= k < |ps| ==> r[k] == PhaseBlock(ps[k])
  {
    if |ps| == 0 then [] else [PhaseBlock(ps[0])] + PhaseBlocks(ps[1..])
  }

  /** `currentPhases.map(...).join('\n')`. */
  function PhaseDetails(ps: seq<ProjectPhase>): (r: string)
    ensures |ps| == 0 ==> r == ""
    ensures |ps| == 1 ==> r == PhaseBlock(ps[0])
  {
    Join(PhaseBlocks(ps), "\n")
  }

  const ContextHead: string :=
    "\nProject: " + ProjectName + "\nGoal: " + ProjectGoal + "\n\n"
    + "Governance:\n"
    + "- Weekly Status Checks (15 mins)\n"
    + "- Phase Reviews (After Pilot & Milestones)\n"
    + "- Post-Implementation Review\n\n"
    + "Strategy: Phased Rollout (Assess -> Pilot -> Refine -> Launch).\n\n"
    + "Phase Details:\n"

  const ContextTail: string :=
    "\n\nKey Stakeholders: Project Lead, Learning & OD, Google Consultant.\n"

  /** `generateProjectContext(currentPhases)`. */
  function ProjectContext(ps: seq<ProjectPhase>): (r: string)
    ensures |r| == |ContextHead| + |PhaseDetails(ps)| + |ContextTail|
    ensures r[..|ContextHead|] == ContextHead
    ensures r[|r| - |ContextTail|..] == ContextTail
    ensures r[|ContextHead|..|r| - |ContextTail|] == PhaseDetails(ps)
    ensures |ps| >= 1 && (forall k :: 0 <= k < |ps| ==> SingleLineFields(ps[k])) ==>
      Split(r[|ContextHead|..|r| - |ContextTail|], '\n') == PhaseLines(ps)
  {
    DetailsReadBack(ps);
    var r := ContextHead + PhaseDetails(ps) + ContextTail;
    assert r[|ContextHead|..|r| - |ContextTail|] == PhaseDetails(ps);
    r
  }

  // ---------------------------------------------------------------------
  // Properties of the formatter

  /** The text fields of a phase that the block prints hold no line break. */
  predicate SingleLineFields(p: ProjectPhase) {
    && '\n' !in p.duration && '\n' !in p.focusArea
    && (forall k :: 0 <= k < |p.keyActivities| ==> SingleLineActivity(p.keyActivities[k]))
    && (forall k :: 0 <= k < |p.deliverables| ==> '\n' !in p.deliverables[k])
  }

  predicate SingleLineActivity(a: Activity) {
    '\n' !in a.name && '\n' !in a.timeline && (a.dueDate.Some? ==> '\n' !in a.dueDate.value)
  }

  /** The header, activities and deliverables lines of one phase. */
  function PhaseTriple(p: ProjectPhase): seq<string> {
    [HeaderLine(p), ActivitiesLine(p), DeliverablesLine(p)]
  }

  /** The three lines of every phase, in list order. */
  function PhaseLines(ps: seq<ProjectPhase>): (r: seq<string>)
    ensures |r| == 3 * |ps|
  {
    if |ps| == 0 then [] else PhaseTriple(ps[0]) + PhaseLines(ps[1..])
  }

  /** Lines 3k, 3k+1 and 3k+2 of the details are phase k's three lines. */
  lemma {:induction false} PhaseLinesAt(ps: seq<ProjectPhase>, k: nat)
    requires k < |ps|
    ensures PhaseLines(ps)[3 * k..3 * k + 3] == PhaseTriple(ps[k])
  {
    var t, rest := PhaseTriple(ps[0]), PhaseLines(ps[1..]);
    assert PhaseLines(ps) == t + rest;
    if k > 0 {
      PhaseLinesAt(ps[1..], k - 1);
      assert ps[1..][k - 1] == ps[k];
      ShiftedWindow(t, rest, 3 * k - 3);
    }
  }

  lemma ShiftedWindow<T>(t: seq<T>, rest: seq<T>, j: nat)
    requires |t| == 3 && j + 3 <= |rest|
    ensures (t + rest)[j + 3..j + 6] == rest[j..j + 3]
  {
  }

  lemma PhaseLinesSingle(p: ProjectPhase)
    requires SingleLineFields(p)
    ensures '\n' !in HeaderLine(p)
    ensures '\n' !in ActivitiesLine(p)
    ensures '\n' !in DeliverablesLine(p)
  {
    var texts := ActivityTexts(p.keyActivities);
    forall k | 0 <= k < |texts| ensures '\n' !in texts[k] {
      assert SingleLineActivity(p.keyActivities[k]);
    }
    JoinNoChar(texts, ", ", '\n');
    JoinNoChar(p.deliverables, ", ", '\n');
    LabelsSingle();
    NoneInParts("Activities: ", Join(texts, ", "), ". ", '\n');
    NoneInParts("Deliverables: ", Join(p.deliverables, ", "), "", '\n');
  }

  lemma LabelsSingle()
    ensures '\n' !in "Activities: " && '\n' !in ". " && '\n' !in "Deliverables: " && '\n' !in ""
  {
  }

  /**
   * The phase section is one three-line block per phase, in list order: line
   * 3k is phase k's header, 3k+1 its activities and 3k+2 its deliverables.
   */
  lemma {:induction false} PhaseDetailsLines(ps: seq<ProjectPhase>)
    requires |ps| >= 1
    requires forall k :: 0 <= k < |ps| ==> SingleLineFields(ps[k])
    ensures Split(PhaseDetails(ps), '\n') == PhaseLines(ps)
  {
    SplitJoinPieces(PhaseBlocks(ps), '\n');
    SplitEachBlocks(ps);
  }

  /** With line-free fields, the phase section reads back as the phase lines. */
  lemma DetailsReadBack(ps: seq<ProjectPhase>)
    ensures |ps| >= 1 && (forall k :: 0 <= k < |ps| ==> SingleLineFields(ps[k])) ==>
      Split(PhaseDetails(ps), '\n') == PhaseLines(ps)
  {
    if |ps| >= 1 && (forall k :: 0 <= k < |ps| ==> SingleLineFields(ps[k])) {
      PhaseDetailsLines(ps);
    }
  }

  lemma {:induction false} SplitEachBlocks(ps: seq<ProjectPhase>)
    requires forall k :: 0 <= k < |ps| ==> SingleLineFields(ps[k])
    ensures SplitEach(PhaseBlocks(ps), '\n') == PhaseLines(ps)
  {
    if |ps| > 0 {
      assert PhaseBlocks(ps)[1..] == PhaseBlocks(ps[1..]);
      SplitEachBlocks(ps[1..]);
    }
  }

  /** The bracketed marker after an activity's name tells whether it is done. */
  lemma MarkerShowsCompletion(a: Activity, b: Activity)
    requires a.name == b.name
    requires ActivityText(a) == ActivityText(b)
    ensures a.completed == b.completed
  {
    var n := |a.name| + 2;
    assert ActivityText(a)[n] == Marker(a.completed)[0];
    assert ActivityText(b)[n] == Marker(b.completed)[0];
  }

  /** An empty due date renders like no due date at all: as `Not Set`. */
  lemma EmptyDueDateNotSet(a: Activity)
    ensures ActivityText(a.(dueDate := Some(""))) == ActivityText(a.(dueDate := None))
  {
    var blank, absent := a.(dueDate := Some("")), a.(dueDate := None);
    assert ActivityTail(blank) == ActivityTail(absent);
  }

  // ---------------------------------------------------------------------
  // Properties of the seed list

  /** Ids are 1..6 in list order, hence distinct and ascending. */
  lemma SeedIds()
    ensures forall k :: 0 <= k < |SeedPhases()| ==> SeedPhases()[k].id == k + 1
    ensures forall j, k :: 0 <= j < k < |SeedPhases()| ==> SeedPhases()[j].id < SeedPhases()[k].id
  {
  }

  lemma SeedShape()
    ensures forall k :: 0 <= k < |SeedPhases()| ==> |SeedPhases()[k].keyActivities| >= 1
    ensures SeedPhases()[0].progress == 15
    ensures forall k :: 1 <= k < |SeedPhases()| ==> SeedPhases()[k].progress == 0
    ensures forall k :: 0 <= k < |SeedPhases()| ==> |SeedPhases()[k].keyActivities| <= 4
    ensures SeedPhases()[0].status == Active
    ensures forall k :: 1 <= k < |SeedPhases()| ==> SeedPhases()[k].status == Pending
    ensures forall k :: 0 <= k < |SeedPhases()| ==>
      forall j :: 0 <= j < |SeedPhases()[k].keyActivities| ==> !SeedPhases()[k].keyActivities[j].completed
  {
  }
}
