/** The dashboard of components/Dashboard.tsx: the provider toggle and scan
    guard of the connections panel, the profile editor, the form that
    tracks an external application, and the two application tabs. */
module Dashboard {
  import opened Common
  import opened Strings
  import opened Lists
  import opened Types
  import Onboarding

  /** ConnectionsSection.toggleProvider: the copied provider list loses the
      provider when connected and gains it at the end otherwise; the other
      providers and the other fields of the user are unchanged. */
  method ToggleProvider(user: User, provider: string) returns (updated: User)
    ensures updated.(connectedProviders := user.connectedProviders) == user
    ensures updated.connectedProviders == ToggleBack(user.connectedProviders, provider)
    ensures provider in updated.connectedProviders <==> provider !in user.connectedProviders
    ensures forall p :: p != provider ==>
      multiset(updated.connectedProviders)[p] == multiset(user.connectedProviders)[p]
  {
    var newProviders := user.connectedProviders;
    if provider in newProviders {
      newProviders := Filter(newProviders, Except(provider));
    } else {
      newProviders := newProviders + [provider];
    }
    ToggleFlips(user.connectedProviders, provider);
    updated := user.(connectedProviders := newProviders);
  }

  /** handleScan goes ahead only with at least one connected provider. */
  predicate ScanStarts(user: User)
  {
    |user.connectedProviders| > 0
  }

  /** Connecting a first provider enables the scan, and disconnecting the
      only one disables it again (stated over the toggled provider list
      that ToggleProvider returns). */
  lemma ToggleEnablesScan(user: User, provider: string)
    ensures user.connectedProviders == [] ==>
      ScanStarts(user.(connectedProviders := ToggleBack(user.connectedProviders, provider)))
    ensures user.connectedProviders == [provider] ==>
      !ScanStarts(user.(connectedProviders := ToggleBack(user.connectedProviders, provider)))
  {
    if user.connectedProviders == [provider] {
      assert ToggleBack([provider], provider) == Filter([provider], Except(provider));
    }
  }

  /** handleArrayChange's value: the comma-separated pieces, each trimmed. */
  function CommaList(value: string): (r: seq<string>)
    ensures |r| == |Split(value, ",")| == CountChar(value, ',') + 1
    ensures forall i :: 0 <= i < |r| ==> r[i] == Trim(Split(value, ",")[i])
  {
    SplitCharCount(value, ',');
    Map(Split(value, ","), Trim)
  }

  /** No piece of the list keeps leading or trailing white space, and none
      holds a comma. */
  lemma CommaListPieces(value: string)
    ensures forall s :: s in CommaList(value) ==>
      s == "" || (!IsSpace(s[0]) && !IsSpace(s[|s| - 1]))
    ensures forall s :: s in CommaList(value) ==> !Contains(s, ",")
  {
    var pieces := Split(value, ",");
    forall i | 0 <= i < |pieces|
      ensures var s := Trim(pieces[i]); s == "" || (!IsSpace(s[0]) && !IsSpace(s[|s| - 1]))
      ensures !Contains(Trim(pieces[i]), ",")
    {
      TrimProperties(pieces[i]);
      var k :| OccursAt(pieces[i], Trim(pieces[i]), k);
      OccursInside(pieces[i], Trim(pieces[i]), k, ",");
    }
  }

  /** A separator that does not occur in a string does not occur in any
      piece of it. */
  lemma OccursInside(s: string, piece: string, k: nat, sep: string)
    requires OccursAt(s, piece, k) && !Contains(s, sep) && |sep| > 0
    ensures !Contains(piece, sep)
  {
    ContainsIff(piece, sep);
    ContainsIff(s, sep);
    forall j | OccursAt(piece, sep, j) ensures OccursAt(s, sep, k + j) {
      assert piece == s[k..k + |piece|];
      forall t | 0 <= t < |sep| ensures s[k + j + t] == sep[t] {
        assert piece[j + t] == sep[t];
      }
      assert s[k + j..k + j + |sep|] == sep;
    }
  }

  /** ProfileSection: whether it is editing, and the edited copy of the
      user. */
  class ProfileEditor {
    var isEditing: bool
    var editState: User

    constructor (user: User)
      ensures !isEditing && editState == user
    {
      isEditing := false;
      editState := user;
    }

    method HandleArrayChange(field: Onboarding.ListField, value: string)
      modifies this`editState
      ensures editState == Onboarding.SetList(old(editState), field, CommaList(value))
    {
      editState := Onboarding.SetList(editState, field, CommaList(value));
    }

    /** handleSave hands the edited copy over and leaves editing. */
    method HandleSave() returns (saved: User)
      modifies this`isEditing
      ensures saved == editState && !isEditing
    {
      saved := editState;
      isEditing := false;
    }

    /** handleCancel drops the edits: the copy is the user again. */
    method HandleCancel(user: User)
      modifies this
      ensures editState == user && !isEditing
    {
      editState := user;
      isEditing := false;
    }
  }

  /** The form of ExternalJobForm; `dateApplied` is a day number, None when
      the date input is cleared. */
  datatype ExternalForm = ExternalForm(title: string, company: string, stage: string, dateApplied: Option<int>)

  /** The form as it starts and as it is reset after a submit. */
  function BlankForm(today: int): ExternalForm
  {
    ExternalForm("", "", "Applied", Some(today))
  }

  /** handleSubmit at instant `now`: no job when the title or company is
      empty (not trimmed); otherwise an external job carrying the form's
      stage and date, with an unknown deadline and the status
      "In Progress". */
  function SubmitExternal(form: ExternalForm, now: nat): (r: Option<Job>)
    ensures r.None? <==> form.title == "" || form.company == ""
    ensures r.Some? ==> var job := r.value;
      job.id == "ext-job-" + NatToString(now) && job.title == form.title && job.company == form.company
      && job.isExternal && job.deadline.None? && job.stage == Some(form.stage)
      && job.applicationStatus == Some("In Progress") && job.dateApplied == form.dateApplied
      && job.skills == [] && job.location == "External/Not Specified"
  {
    if form.title == "" || form.company == "" then None
    else Some(Job("ext-job-" + NatToString(now), form.title, form.company, "External/Not Specified",
                  "Manually tracked job.", [], "Unknown", "Unknown", None, None, None, None,
                  Some("In Progress"), true, Some(form.stage), form.dateApplied))
  }

  function IsInternalApplication(applied: set<string>): Job -> bool
  {
    (job: Job) => job.id in applied && !job.isExternal
  }

  function IsExternal(job: Job): bool { job.isExternal }

  /** The "My Applications" tab. */
  function InternalTab(jobs: seq<Job>, applied: set<string>): seq<Job>
  {
    Filter(jobs, IsInternalApplication(applied))
  }

  /** The "External Tracker" tab. */
  function ExternalTab(jobs: seq<Job>): seq<Job>
  {
    Filter(jobs, IsExternal)
  }

  /** The internal tab holds the applied jobs that are not external, the
      external tab every external job whether applied or not; no job is on
      both, every applied or external job is on one, and both keep the
      order of the job list. */
  lemma TabsPartition(jobs: seq<Job>, applied: set<string>)
    ensures forall j :: j in InternalTab(jobs, applied) <==> j in jobs && j.id in applied && !j.isExternal
    ensures forall j :: j in ExternalTab(jobs) <==> j in jobs && j.isExternal
    ensures forall j :: j in InternalTab(jobs, applied) ==> j !in ExternalTab(jobs)
    ensures forall j :: j in jobs && (j.id in applied || j.isExternal) ==>
      j in InternalTab(jobs, applied) || j in ExternalTab(jobs)
    ensures Subseq(InternalTab(jobs, applied), jobs) && Subseq(ExternalTab(jobs), jobs)
  {
    FilterSubseq(jobs, IsInternalApplication(applied));
    FilterSubseq(jobs, IsExternal);
  }

  /** A submitted job shows on the external tab of any list holding it and
      never on the internal tab. */
  lemma SubmittedJobIsExternal(form: ExternalForm, now: nat, jobs: seq<Job>, applied: set<string>)
    requires SubmitExternal(form, now).Some? && SubmitExternal(form, now).value in jobs
    ensures SubmitExternal(form, now).value in ExternalTab(jobs)
    ensures SubmitExternal(form, now).value !in InternalTab(jobs, applied)
  {
    TabsPartition(jobs, applied);
  }
}
