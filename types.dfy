/** The records of the dashboard (types.ts). */
module Types {

  /** An optional value; `Activity.dueDate` is an optional property. */
  datatype Option<+T> = None | Some(value: T)

  /** The three states a phase can be in; `Name` is the enum's string value. */
  datatype PhaseStatus = Pending | Active | Completed {
    function Name(): string {
      match this
      case Pending => "Pending"
      case Active => "Active"
      case Completed => "Completed"
    }
  }

  /** One task of a phase; `dueDate` is absent until the date input sets it. */
  datatype Activity = Activity(
    name: string,
    timeline: string,
    completed: bool,
    dueDate: Option<string>)

  /** One stage of the rollout plan. `progress` is a percentage. */
  datatype ProjectPhase = ProjectPhase(
    id: int,
    name: string,
    focusArea: string,
    duration: string,
    keyActivities: seq<Activity>,
    deliverables: seq<string>,
    status: PhaseStatus,
    progress: int)

  /** One row of an imported training roster. */
  datatype Participant = Participant(
    name: string,
    email: string,
    department: string,
    sessionDate: string,
    time: string)

  /** The four navigation targets; `Name` is the string the nav items carry. */
  datatype ViewState = Dashboard | Schedule | Brief | Assistant {
    function Name(): string {
      match this
      case Dashboard => "dashboard"
      case Schedule => "schedule"
      case Brief => "brief"
      case Assistant => "assistant"
    }
  }
}
