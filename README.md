# AI Enablement portal: phase store, roster import, context and dashboard

This project models the stateful core of a single-page project portal in
Dafny. The portal tracks a Google Workspace AI enablement rollout as six
phases. Each phase has key activities, deliverables, a status and a progress
percentage. Four pieces of logic are modelled and proved.

- **Activity mutator and view router** (`App.tsx`):
  - `updateActivity` rewrites one field of one activity in the phase with a
    matching id, then recomputes that phase's progress as
    `Math.round(completed / total * 100)`.
  - `renderContent` picks the screen for the current view name.
  - The `useState` state of `App` becomes the class `App.AppState`.
- **Roster import** (`components/AssistantView.tsx`):
  - The CSV loop of `handleFileUpload` drops the first line. Every other line
    is trimmed and skipped when empty, and kept when its comma split has at
    least five columns. The first five columns are trimmed into a participant.
  - The participant text `handleSend` appends to the project context.
  - `clearParticipants`.
  - The component's roster state becomes `Assistant.RosterSession`.
- **Context formatter and seed** (`constants.ts`): `generateProjectContext`
  serialises the phases into the assistant's grounding text, and `PHASES` is
  the seed list.
- **Dashboard figures** (`components/DashboardView.tsx`):
  - the phase in focus;
  - the completed-phase count;
  - the overall progress, which is the rounded mean of the phase progress;
  - the two pie slices;
  - the three-activity and two-deliverable previews.

Modules:

- `Types`: the records of `types.ts`.
- `Text`: the JavaScript string built-ins that the core uses: `split` on one
  character, `join`, `trim`, and number-to-string conversion.
- `Rounding`: `Math.round` of a quotient.
- `Constants`: `constants.ts`.
- `App`: `App.tsx`.
- `Assistant`: `components/AssistantView.tsx`.
- `DashboardView`: `components/DashboardView.tsx`.

Modelling choices:

- **Rounding.** `Math.round(n / d)` is floor(n/d + 1/2) on exact rationals,
  written `(2n + d) / (2d)` with Dafny's floor division. `Math.round(x * 100)`
  on the float `completed / total` is modelled as the exact rational
  `100 * completed / total`.
- **Strings.** Text is `seq<char>`. `trim` removes the ECMAScript WhiteSpace
  and LineTerminator characters. `split(c)` on an empty string gives `[""]`.
  `join` of an empty list gives `""`.
- **Due dates.** A missing `dueDate` is `None`. The `||` in the formatter makes
  an empty string print as `Not Set` too.
- **Phase ids.** `updateActivity` maps over the whole list, so every phase
  whose id matches is updated. The model keeps that and does not assume that
  ids are unique.
- **The seed.** `PHASES` is kept exactly as written. `App.tsx:21-23` derives
  a phase's progress from its completed share when an activity changes. The
  seed's phase 1 (`constants.ts:12-20`) does not follow that rule: it has
  progress 15 with none of its four activities completed. It keeps that value
  until one of its activities is changed. `App.SeedProgressMismatch` proves
  the mismatch and `App.SeedFirstTick` proves the repair.
- **Roster import errors.** The `catch` at `components/AssistantView.tsx:108-111`
  cannot be reached from a string input: nothing in the `try` block throws.
  So every import replaces the roster with the parsed rows, even when there
  are none.

## Model

| member | source | states |
|---|---|---|
| Text.Trim | components/AssistantView.tsx:84 | `trim`: the result has no leading or trailing JS whitespace; it is the slice between the first and last non-space character; it is empty exactly when the input is all whitespace |
| Text.TrimUnique | components/AssistantView.tsx:91-95 | whitespace around an already trimmed string is exactly what `trim` removes |
| Text.TrimIdempotent | components/AssistantView.tsx:84 | trimming twice is trimming once |
| Text.TrimPadded | components/AssistantView.tsx:84 | extra whitespace on both sides does not change the trim |
| Text.TrimPreservesAbsence | components/AssistantView.tsx:84 | trimming adds no character |
| Text.Split | components/AssistantView.tsx:79 | `split(c)`: at least one piece; no piece holds the separator; every character of a piece comes from the input |
| Text.Join | components/AssistantView.tsx:50 | `join`: one part joins to itself and no parts join to `""` |
| Text.JoinCons | constants.ts:114 | joining a part in front adds it and one separator |
| Text.JoinNoChar | constants.ts:113-115 | a join holds no character that neither the parts nor the separator hold |
| Text.JoinSplit | components/AssistantView.tsx:79 | joining the pieces of a split with the separator restores the text |
| Text.SplitNoSeparator | components/AssistantView.tsx:79 | text without the separator splits into itself alone |
| Text.SplitAround | components/AssistantView.tsx:79 | a separator between two texts splits them independently |
| Text.SplitLeadingSeparator | components/AssistantView.tsx:48 | a leading separator yields an empty first piece |
| Text.SplitFirstPiece | components/AssistantView.tsx:48 | a separator-free head before the first separator is the first piece |
| Text.SplitPrefix | components/AssistantView.tsx:79 | a separator-free prefix joins the first piece and leaves the others |
| Text.SplitSuffix | components/AssistantView.tsx:79 | a separator-free suffix joins the last piece and leaves the others |
| Text.SplitJoin | components/AssistantView.tsx:48-50 | splitting a join of separator-free parts gives back the parts |
| Text.HeadedSplit | components/AssistantView.tsx:48-50 | a line break, a heading, a line break and joined lines split back into `""`, the heading and the lines |
| Text.SplitJoinPieces | constants.ts:113-115 | splitting a join of any parts gives each part's pieces in order |
| Text.SplitLength | components/AssistantView.tsx:79 | a split has one more piece than the text has separators |
| Text.NatToString | constants.ts:113 | a decimal numeral: one or more digits, a single digit exactly below 10 |
| Text.IntToString | constants.ts:113 | a numeral with a leading minus exactly for negative numbers |
| Text.NatToStringValue | constants.ts:113 | the decimal value of the numeral of n is n |
| Text.IntToStringValue | constants.ts:113 | reading the numeral back, a leading minus negating it, gives the number |
| Rounding.RoundDiv | App.tsx:23 | `Math.round(num / den)`: the integer r with r − 1/2 ≤ num/den < r + 1/2 |
| Rounding.RoundDivUnique | App.tsx:23 | only one integer meets those bounds |
| Rounding.Percent | App.tsx:23 | the rounded percentage of a count out of a total lies in 0..100 |
| Rounding.PercentZero | App.tsx:23 | with at most 200 items, 0% exactly when the count is 0 |
| Rounding.PercentFull | App.tsx:23 | with fewer than 200 items, 100% exactly when everything is counted |
| Rounding.RoundDivBetween | components/DashboardView.tsx:16 | a quotient inside [lo, hi] rounds to a value inside [lo, hi] |
| Constants.SeedPhases | constants.ts:6-92 | the seed list as written: six phases |
| Constants.DueText | constants.ts:114 | a due date prints as itself unless it is missing or empty; `Not Set` shows exactly for a missing, empty or literally `Not Set` date |
| Constants.ActivityTexts | constants.ts:114 | one activity text per activity, in order |
| Constants.PhaseBlocks | constants.ts:113-115 | one text block per phase, in order |
| Constants.ProjectContext | constants.ts:101-118 | the fixed head, then the phase details, then the fixed stakeholder tail; for one or more phases with line-free fields, the text between head and tail splits on line breaks into exactly three lines per phase, in phase order |
| Constants.Marker | constants.ts:114 | `DONE` or `PENDING`, and `DONE` exactly for a completed activity |
| Constants.ActivityText | constants.ts:114 | the name and ` [`, then the `DONE`/`PENDING` marker, then the tail; the text has no line break when the activity's fields have none |
| Constants.ActivityTail | constants.ts:114 | the tail after the marker, `] (Due: <date or Not Set>, Timeline: <timeline>)`, has no line break when the activity's fields have none |
| Constants.HeaderLine | constants.ts:113 | `Phase <id> (`, then `<duration>): <focus area>`, then `. Status: <status>. `, at those offsets; no line break when the duration and focus area have none |
| Constants.StatusText | constants.ts:113 | `. Status: <status>. ` has no line break |
| Constants.ActivitiesLine | constants.ts:114 | `Activities: `, then the activity texts joined with `, `, then `. ` |
| Constants.DeliverablesLine | constants.ts:115 | `Deliverables: ` followed by the deliverables joined with `, `; the bare label with none, the label and the one deliverable with one |
| Constants.PhaseBlock | constants.ts:113-115 | a phase block with line-free fields splits back into exactly its header, activities and deliverables lines |
| Constants.PhaseDetails | constants.ts:113-115 | no phases give an empty text, and one phase gives its block alone |
| Constants.ThreeLines | constants.ts:113-115 | three line-free texts joined by line breaks split back into the three |
| Constants.PhaseLinesAt | constants.ts:113-115 | line 3k, 3k+1 and 3k+2 of the details are phase k's header, activities and deliverables lines |
| Constants.PhaseLinesSingle | constants.ts:113-115 | each of a phase's three lines is free of line breaks when its fields are |
| Constants.PhaseDetailsLines | constants.ts:113-115 | the details of n phases read back as 3n lines, three per phase in phase order |
| Constants.SplitEachBlocks | constants.ts:113-115 | the blocks split line by line give the phase lines |
| Constants.MarkerShowsCompletion | constants.ts:114 | two same-named activities with the same text agree on completion: the DONE or PENDING marker shows it |
| Constants.EmptyDueDateNotSet | constants.ts:114 | an empty due date prints exactly like a missing one |
| Constants.SeedIds | constants.ts:6-92 | the seed ids are 1..6 in increasing order |
| Constants.SeedShape | constants.ts:6-92 | every seed phase has 1..4 activities and none is completed; phase 1 is Active with progress 15; the rest are Pending with progress 0 |
| App.Apply | App.tsx:19 | the update sets only its own field |
| App.CountCompleted | App.tsx:22 | `filter(a => a.completed).length`: at most the list length; 0 exactly when nothing is done; the length exactly when everything is |
| App.CountCompletedReplace | App.tsx:18-22 | replacing one activity changes the count by that activity's own change |
| App.Progress | App.tsx:22-23 | a non-empty activity list has progress in 0..100, the rounded share of its completed activities |
| App.UpdatePhase | App.tsx:17-25 | only activity i changes, by the update; name, focus, duration, deliverables and status stay; progress is derived from the new activities |
| App.UpdatePhases | App.tsx:15-29 | same length and ids; phases with another id untouched; each matching phase updated |
| App.UpdateUnknownId | App.tsx:16-28 | an id that no phase carries changes nothing |
| App.UpdateDerivesProgress | App.tsx:22-25 | after an update, each matching phase's progress is derived, and the invariant spreads to the list |
| App.ApplyIdempotent | App.tsx:19 | setting a field twice to the same value is setting it once |
| App.UpdatePhaseIdempotent | App.tsx:17-25 | a repeated update of a phase changes nothing more |
| App.UpdateIdempotent | App.tsx:15-29 | a repeated update of the list changes nothing more |
| App.CompletingAddsOne | App.tsx:19-22 | ticking an open activity adds one to the completed count |
| App.DueDateKeepsCount | App.tsx:19-23 | dating an activity keeps the count and a derived progress |
| App.SeedProgressMismatch | constants.ts:12-20 | seed phase 1 breaks the derived-progress invariant (15 against a derived 0); the other five keep it |
| App.NothingDoneIsZero | App.tsx:22-23 | with nothing done, the progress is 0 |
| App.SeedFirstTick | App.tsx:15-29 | ticking the first activity of seed phase 1 sets its progress to 25 |
| App.ProgressDerived | App.tsx:22-25 | a phase whose progress is derived from its activities has progress in 0..100 |
| App.RenderContent | App.tsx:38-46 | the brief screen exactly for `brief`, and it alone gets no phases; every other screen gets the given phases; the dashboard for `dashboard` and for every unknown name |
| App.RenderKnownViews | App.tsx:38-43 | each of the four view ids selects its own screen, and different views select different screens |
| App.RenderUnknownView | App.tsx:44 | any other view id selects the dashboard |
| App.AppState.constructor | App.tsx:11-13 | the app starts on the dashboard with the seed phases |
| App.AppState.UpdateActivity | App.tsx:15-29 | the new phase list is the update of the old one; the view stays |
| App.AppState.SetView | App.tsx:67 | the view becomes the given id; the phases stay |
| App.AppState.Render | App.tsx:38-46 | the screen is `RenderContent` of the current view and phases: the brief exactly for `brief`, the current phases on every other screen, and the dashboard for `dashboard` and any unknown view |
| Assistant.FromColumns | components/AssistantView.tsx:90-96 | a participant from the first five columns, each field trimmed |
| Assistant.ParseLine | components/AssistantView.tsx:84-97 | a blank or all-whitespace line gives no participant |
| Assistant.ParsedPortable | components/AssistantView.tsx:88-96 | a parsed participant's fields are trimmed and hold no comma |
| Assistant.LineRoundTrip | components/AssistantView.tsx:88-96 | a participant with trimmed, comma-free fields, written as `name,email,department,sessionDate,time`, parses back to itself: column 0 is the name, 1 the email, 2 the department, 3 the session date and 4 the time |
| Assistant.ParseCsvLines | components/AssistantView.tsx:83-98 | such participants written one per line parse back to the same list |
| Assistant.RosterRoundTrip | components/AssistantView.tsx:79-98 | a file with any one-line header and one CSV line per participant (trimmed, comma-free and line-free fields) imports exactly those participants in file order |
| Assistant.Roster | components/AssistantView.tsx:79-98 | fewer participants than the text has lines, and none from text without a line break |
| Assistant.Row | components/AssistantView.tsx:84-97 | a line gives at most one participant |
| Assistant.ParseLines | components/AssistantView.tsx:83-98 | no more participants than lines |
| Assistant.ParseLinesConcat | components/AssistantView.tsx:83-98 | the rows of two runs of lines are the rows of each, in order |
| Assistant.ParseRoster | components/AssistantView.tsx:79-98 | the loop's result is the roster of the text: rows parsed in line order with the header line dropped |
| Assistant.RosterStep | components/AssistantView.tsx:83-97 | each loop step appends exactly the current line's row |
| Assistant.HeaderDropped | components/AssistantView.tsx:82-83 | the first line is discarded whatever it holds |
| Assistant.HeaderOnly | components/AssistantView.tsx:83 | header-only text yields an empty roster |
| Assistant.ParseLineColumns | components/AssistantView.tsx:84-97 | trimming the line first does not matter: a line gives a participant exactly when its comma split has five or more columns, made from those columns |
| Assistant.ParseLineFieldCount | components/AssistantView.tsx:88-89 | a line is accepted exactly when it holds at least four commas |
| Assistant.ExtraColumnsIgnored | components/AssistantView.tsx:89-96 | columns after the fifth do not change the participant |
| Assistant.RosterBound | components/AssistantView.tsx:79-98 | a roster never has more participants than the text has line breaks |
| Assistant.SampleImport | components/AssistantView.tsx:78-98 | a header line and one `Alice` row import exactly that one participant |
| Assistant.SampleRow | components/AssistantView.tsx:84-96 | the sample row parses to the sample participant |
| Assistant.SampleFields | components/AssistantView.tsx:90-96 | the sample columns give the sample participant |
| Assistant.ParseJoinedRow | components/AssistantView.tsx:88-96 | comma-free columns joined with commas parse back into their participant |
| Assistant.CleanField | components/AssistantView.tsx:91-95 | an already trimmed field is kept as it is |
| Assistant.RosterSingleLine | components/AssistantView.tsx:79-98 | no imported field holds a line break |
| Assistant.ParseLinesSingleLine | components/AssistantView.tsx:83-98 | rows of line-free lines have line-free fields |
| Assistant.ParticipantLine | components/AssistantView.tsx:49 | `- <name> (<department>): `, then `<session date> at <time>`, then ` (Email: <email>)`, at those offsets; no line break when the fields have none |
| Assistant.ParticipantLines | components/AssistantView.tsx:48-50 | one line per participant, in roster order |
| Assistant.ParticipantContext | components/AssistantView.tsx:46-51 | the participant text is empty exactly when the roster is |
| Assistant.ParticipantContextLines | components/AssistantView.tsx:46-51 | a non-empty roster's text reads line by line as an empty line, `Scheduled Participants:`, then one line per participant |
| Assistant.ParticipantLinesSingle | components/AssistantView.tsx:48-50 | every participant line is line-free |
| Assistant.HeadingSingle | components/AssistantView.tsx:48 | the heading is one line |
| Assistant.FullContext | components/AssistantView.tsx:43-53 | the chat context is the project context followed by exactly the participant context; for a non-empty roster of line-free participants that tail reads back as an empty line, `Scheduled Participants:` and one line per participant |
| Assistant.RosterSession.constructor | components/AssistantView.tsx:21 | the panel starts with no participants |
| Assistant.RosterSession.ImportRoster | components/AssistantView.tsx:76-106 | the roster becomes the parse of the file text, and the count reported is its size |
| Assistant.RosterSession.ClearParticipants | components/AssistantView.tsx:118-119 | the roster becomes empty |
| Assistant.RosterSession.Context | components/AssistantView.tsx:46-51 | the context is `FullContext` of the phases and the current roster: it starts with the project context and equals it exactly when the roster is empty |
| DashboardView.FirstActive | components/DashboardView.tsx:12 | the index of an Active phase that no earlier Active phase precedes, or the length when none is Active |
| DashboardView.ActivePhase | components/DashboardView.tsx:12 | the phase in focus belongs to the list; it is Active when any phase is, and the first phase when none is |
| DashboardView.ActivePhaseIsFirst | components/DashboardView.tsx:12 | the first Active phase is the one in focus |
| DashboardView.CompletedList | components/DashboardView.tsx:13 | the filter keeps only Completed phases of the list and misses none |
| DashboardView.CompletedPhases | components/DashboardView.tsx:13 | the count is at most the list length and is 0 exactly when no phase is Completed |
| DashboardView.AllCompleted | components/DashboardView.tsx:13 | the count equals the length exactly when every phase is Completed |
| DashboardView.CompletedConcat | components/DashboardView.tsx:13 | the filter of two lists one after the other is the two filters one after the other |
| DashboardView.SumBetween | components/DashboardView.tsx:16 | `SumProgress`: progress values inside [lo, hi] sum to between lo and hi times the list length |
| DashboardView.SumConcat | components/DashboardView.tsx:16 | `SumProgress`: the sum over two lists one after the other is the sum of the two sums |
| DashboardView.OverallProgress | components/DashboardView.tsx:16 | the rounded mean of the phase progress, and in 0..100 when every phase's progress is |
| DashboardView.MeanInRange | components/DashboardView.tsx:16 | progress in 0..100 keeps the rounded mean in 0..100 |
| DashboardView.OverallUniform | components/DashboardView.tsx:16 | phases that all stand at v give v overall |
| DashboardView.OverallBetween | components/DashboardView.tsx:16 | the overall progress lies between any lower and upper bound of the phase progress |
| DashboardView.PieData | components/DashboardView.tsx:18-21 | two slices, `Completed` with the overall progress and `Remaining` with the rest, summing to 100 and both in 0..100 when the progress values are |
| DashboardView.SeedOverall | components/DashboardView.tsx:16 | the seed's overall progress is 3, since a mean of 2.5 rounds up |
| DashboardView.SeedSum | components/DashboardView.tsx:16 | the seed's progress values add up to 15 |
| DashboardView.SeedFocus | components/DashboardView.tsx:12 | the seed's focus card shows phase 1 |
| DashboardView.SliceFront | components/DashboardView.tsx:77 | `slice(0, n)`: a prefix of at most n elements, all of the list when it is short, n elements otherwise |
| DashboardView.ActivityPreview | components/DashboardView.tsx:77 | the focus card lists a prefix of the focus phase's activities: three, or all of them when there are fewer |
| DashboardView.DeliverablePreview | components/DashboardView.tsx:90 | the focus card lists a prefix of the focus phase's deliverables: two, or all of them when there are fewer |
| DashboardView.UpdateKeepsStatusFigures | components/DashboardView.tsx:12-13 | updating an activity never moves the focus phase or the completed-phase count |
| DashboardView.SameStatusFigures | components/DashboardView.tsx:12-13 | lists that agree on every status agree on the focus index and the completed count |

## Left out

- The assistant gateway (`services/geminiService.ts`) is not modelled. It is
  a network call into an external SDK. So is the async `handleSend` around
  it: the model keeps only the context text it builds.
- The chat message list, the loading flag, the input box, the scroll effect
  and the mobile menu are UI state with no logic to prove.
- The `FileReader` callback and the file input reset are not modelled. The
  file's text is a parameter of `ImportRoster`.
- The import's `catch` branch and its error message are not modelled, because
  the code cannot reach them on a string input.
- The success message text is not modelled. The model returns the count that
  the message reports.
- `ScheduleView` and `ProjectBriefView` are not modelled. They only render and
  forward `updateActivity` calls. `KPIS` is static display data.
- App.Progress: the source divides in floating point before `Math.round`. The
  model rounds the exact rational instead, and does not model IEEE ties that
  land just below one half.
- App.UpdatePhases: it requires the activity index to be in range for every
  phase with the given id. JavaScript would grow the array with a broken
  activity, and the calling views never pass such an index.
- App.Progress: it requires a non-empty activity list. On an empty list the
  source computes `NaN` (0 / 0), which `Math.round` keeps.
- DashboardView.ActivePhase: it requires a non-empty phase list. On an empty
  list `phases[0]` is `undefined` and the view would fail. The same
  precondition holds for OverallProgress and PieData, whose source divides by
  the length.
- Phase ids are integers. JavaScript numbers that are not integers are not
  modelled.
- App.AppState.SetView: the `as ViewState` cast checks nothing, so any string
  can become the view. RenderUnknownView shows that one which is not a view
  id falls back to the dashboard.
- The remaining markup of the dashboard (KPI cards, colours, the legend) is
  display-only.
