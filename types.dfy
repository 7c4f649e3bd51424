/** The records of the application (types.ts) as values. Dates are day
    numbers: a job's deadline and its own application date are `None` when
    the text is empty, "Varies", "Unknown" or otherwise not a date. */
module Types {
  import opened Common

  datatype Pin = Pin(id: string, title: string, content: string)

  datatype NetworkContact = NetworkContact(
    id: string, name: string, company: string, role: string,
    dateContacted: string, event: string, notes: string)

  datatype KeyAchievement = KeyAchievement(description: string, metric: string)

  datatype User = User(
    name: string,
    interests: seq<string>,
    aspirations: string,
    cv: string,
    coverLetter: string,
    pins: seq<Pin>,
    networkContacts: seq<NetworkContact>,
    coreCompetencies: seq<string>,
    softSkills: seq<string>,
    keyAchievements: seq<KeyAchievement>,
    workStyle: string,
    personalNarrative: string,
    connectedProviders: seq<string>)

  /** A job listing. `mode`, `status`, `applicationStatus`, `stage` and
      `industry` are optional strings; an absent `isExternal` is false. */
  datatype Job = Job(
    id: string,
    title: string,
    company: string,
    location: string,
    description: string,
    skills: seq<string>,
    tenure: string,
    visa: string,
    deadline: Option<int>,
    industry: Option<string>,
    mode: Option<string>,
    status: Option<string>,
    applicationStatus: Option<string>,
    isExternal: bool,
    stage: Option<string>,
    dateApplied: Option<int>)

  datatype MissionType = Network | Apply | Learn | Outreach

  datatype Mission = Mission(
    id: string, title: string, description: string,
    current: int, target: int, kind: MissionType, icon: string)

  /** `lastCompletedDate` is the instant of the last claim, if any. */
  datatype MissionState = MissionState(
    streak: int, isWeekCompleted: bool, lastCompletedDate: Option<int>,
    missions: seq<Mission>)

  datatype Severity = Warning | Info | Error | Success

  /** What a notification says: the milestone and the job fields its
      sentence quotes. */
  datatype Message =
    | DeadlineReminder(milestone: nat, company: string, title: string, deadline: int)
    | FollowUpReminder(milestone: nat, company: string)

  /** The action behind a notification's button, as a command: confirming
      that a follow-up for `jobId` was sent resolves `notificationId`. */
  datatype Command = ConfirmFollowUp(jobId: string, notificationId: string)

  datatype Notification = Notification(
    id: string, kind: Severity, message: Message, action: Option<Command>)
}
