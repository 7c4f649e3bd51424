/** The application-tracking state of App.tsx and its handlers: applying,
    adding an external job, dismissing a notification, confirming a
    follow-up, the two debug helpers, mission progress and the weekly claim.
    Each handler's state update is one method; the notification effect is
    the `Refresh` method, which the caller runs after a change. */
module Tracking {
  import opened Common
  import opened Strings
  import opened Lists
  import opened Types
  import opened MissionRules
  import opened Notifications

  /** The loop that deletes, from a copy of the dismissed ids, every id
      starting with `prefix`. */
  method ClearPrefixed(ids: set<string>, prefix: string) returns (kept: set<string>)
    ensures forall d :: d in kept <==> d in ids && !StartsWith(d, prefix)
  {
    kept := ids;
    var todo := ids;
    while todo != {}
      invariant todo <= ids
      invariant forall d :: d in kept <==> d in ids && (d in todo || !StartsWith(d, prefix))
      decreases |todo|
    {
      var d :| d in todo;
      if StartsWith(d, prefix) {
        kept := kept - {d};
      }
      todo := todo - {d};
    }
  }

  /** `jobs.map(j => j.id === jobId ? { ...j, deadline } : j)`. */
  function WithDeadline(jobs: seq<Job>, jobId: string, deadline: int): (r: seq<Job>)
    ensures |r| == |jobs|
    ensures forall i :: 0 <= i < |jobs| ==> r[i].(deadline := jobs[i].deadline) == jobs[i]
    ensures forall i :: 0 <= i < |jobs| ==>
      r[i].deadline == if jobs[i].id == jobId then Some(deadline) else jobs[i].deadline
  {
    seq(|jobs|, i requires 0 <= i < |jobs| =>
      if jobs[i].id == jobId then jobs[i].(deadline := Some(deadline)) else jobs[i])
  }

  /** The four weekly missions a session starts with. */
  const InitialMissions: seq<Mission> := [
    Mission("m1", "The Network Weaver", "Connect with 3 Alumni via the Job Details page.", 0, 3, Network, "\U{1F91D}"),
    Mission("m2", "Application Sprint", "Submit applications for 5 new roles.", 0, 5, Apply, "\U{1F680}"),
    Mission("m3", "Maintenance Check", "Review 3 applied roles that are over 7 days old.", 0, 3, Learn, "\U{1F4CB}"),
    Mission("m4", "Knowledge Base", "Save 2 new answers to your Pinboard.", 0, 2, Learn, "\U{1F9E0}")
  ]

  /** The initial mission state: distinct ids, every mission within its
      target and none complete. */
  lemma InitialMissionsWellFormed()
    ensures UniqueIds(InitialMissions) && WithinTargets(InitialMissions)
    ensures forall i :: 0 <= i < |InitialMissions| ==> InitialMissions[i].current < InitialMissions[i].target
  {
  }

  class Tracker {
    var hasOnboarded: bool
    var curatedJobs: seq<Job>
    var allJobs: seq<Job>
    var externalJobs: seq<Job>
    var appliedJobIds: set<string>
    var applicationDates: map<string, int>
    var followUpLog: map<string, int>
    var dismissedIds: set<string>
    var notifications: seq<Notification>
    var missionState: MissionState
    var pins: seq<Pin>
    var networkContacts: seq<NetworkContact>

    /** The mission ids stay distinct and every mission stays within its
        target, so the mission lemmas apply to every reachable state. */
    predicate Valid()
      reads this
    {
      UniqueIds(missionState.missions) && WithinTargets(missionState.missions)
    }

    /** A session: the onboarding flag, the applied ids, the application
        dates and the follow-up log come from storage, the two job lists
        from the job fetch and the pins and contacts from the user record;
        external jobs, notifications and dismissed ids start empty, and the
        missions start afresh. */
    constructor (hasOnboarded: bool, appliedJobIds: set<string>, applicationDates: map<string, int>,
                 followUpLog: map<string, int>, curatedJobs: seq<Job>, allJobs: seq<Job>,
                 pins: seq<Pin>, networkContacts: seq<NetworkContact>)
      ensures Valid()
      ensures this.hasOnboarded == hasOnboarded && this.appliedJobIds == appliedJobIds
      ensures this.applicationDates == applicationDates && this.followUpLog == followUpLog
      ensures this.curatedJobs == curatedJobs && this.allJobs == allJobs && this.externalJobs == []
      ensures this.dismissedIds == {} && this.notifications == []
      ensures this.missionState == MissionState(1, false, None, InitialMissions)
      ensures this.pins == pins && this.networkContacts == networkContacts
    {
      this.hasOnboarded := hasOnboarded;
      this.appliedJobIds := appliedJobIds;
      this.applicationDates := applicationDates;
      this.followUpLog := followUpLog;
      this.curatedJobs := curatedJobs;
      this.allJobs := allJobs;
      this.externalJobs := [];
      this.dismissedIds := {};
      this.notifications := [];
      this.missionState := MissionState(1, false, None, InitialMissions);
      this.pins := pins;
      this.networkContacts := networkContacts;
      InitialMissionsWellFormed();
    }

    /** The notification effect: nothing before onboarding; otherwise one
        evaluation merged into the live list. */
    method Refresh(today: int)
      requires Valid()
      ensures Valid()
      modifies this`notifications
      ensures !hasOnboarded ==> notifications == old(notifications)
      ensures hasOnboarded ==> notifications == MergeOf(old(notifications),
        Pass(curatedJobs, allJobs, externalJobs, appliedJobIds, applicationDates, followUpLog, dismissedIds, today))
    {
      if !hasOnboarded {
        return;
      }
      var computed := Evaluate(curatedJobs, allJobs, externalJobs, appliedJobIds, applicationDates,
                               followUpLog, dismissedIds, today);
      notifications := Merge(notifications, computed);
    }

    /** handleMissionProgress. */
    method MissionProgress(missionId: string)
      requires Valid()
      ensures Valid()
      modifies this`missionState
      ensures missionState == Progress(old(missionState), missionId)
      ensures TotalCurrent(missionState.missions) == TotalCurrent(old(missionState).missions) +
        (if !old(missionState).isWeekCompleted &&
            exists i :: 0 <= i < |old(missionState).missions| && Advances(old(missionState).missions[i], missionId)
         then 1 else 0)
    {
      ProgressTotal(missionState, missionId);
      missionState := Progress(missionState, missionId);
    }

    /** handleClaimReward. */
    method ClaimReward(now: int)
      requires Valid()
      ensures Valid()
      modifies this`missionState
      ensures missionState == Claim(old(missionState), now)
    {
      missionState := Claim(missionState, now);
    }

    /** handleApply: the job id joins the applied set (which is unchanged
        when it was already there), today becomes its application date, and
        the application mission advances once. */
    method Apply(jobId: string, today: int)
      requires Valid()
      ensures Valid()
      modifies this`appliedJobIds, this`applicationDates, this`missionState
      ensures appliedJobIds == old(appliedJobIds) + {jobId}
      ensures applicationDates == old(applicationDates)[jobId := today]
      ensures missionState == Progress(old(missionState), "m2")
    {
      appliedJobIds := appliedJobIds + {jobId};
      applicationDates := applicationDates[jobId := today];
      MissionProgress("m2");
    }

    /** handleAddExternalJob: the job goes first and the application mission
        advances once. */
    method AddExternalJob(job: Job)
      requires Valid()
      ensures Valid()
      modifies this`externalJobs, this`missionState
      ensures externalJobs == [job] + old(externalJobs)
      ensures missionState == Progress(old(missionState), "m2")
    {
      externalJobs := [job] + externalJobs;
      MissionProgress("m2");
    }

    /** handleUpdatePins: the pin list from the pinboard replaces the old
        one, and the pinboard mission advances once when the list grew. */
    method UpdatePins(newPins: seq<Pin>)
      requires Valid()
      ensures Valid()
      modifies this`pins, this`missionState
      ensures pins == newPins
      ensures missionState == if |newPins| > |old(pins)| then Progress(old(missionState), "m4") else old(missionState)
    {
      var grew := |newPins| > |pins|;
      pins := newPins;
      if grew {
        MissionProgress("m4");
      }
    }

    /** handleUpdateContacts: the contact list is replaced. */
    method UpdateContacts(newContacts: seq<NetworkContact>)
      requires Valid()
      ensures Valid()
      modifies this`networkContacts
      ensures networkContacts == newContacts
    {
      networkContacts := newContacts;
    }

    /** handleDismissNotification: the id is remembered as dismissed and
        every live entry with that id goes. */
    method Dismiss(id: string)
      requires Valid()
      ensures Valid()
      modifies this`dismissedIds, this`notifications
      ensures dismissedIds == old(dismissedIds) + {id}
      ensures notifications == Filter(old(notifications), IdIsNot(id))
      ensures forall n :: n in notifications <==> n in old(notifications) && n.id != id
    {
      dismissedIds := dismissedIds + {id};
      notifications := Filter(notifications, IdIsNot(id));
    }

    /** The confirmation behind "I've Followed Up": today is logged as the
        follow-up date, the maintenance mission advances once, and the
        notification is dismissed. */
    method ConfirmFollowUpSent(jobId: string, id: string, today: int)
      requires Valid()
      ensures Valid()
      modifies this`followUpLog, this`missionState, this`dismissedIds, this`notifications
      ensures followUpLog == old(followUpLog)[jobId := today]
      ensures missionState == Progress(old(missionState), "m3")
      ensures dismissedIds == old(dismissedIds) + {id}
      ensures notifications == Filter(old(notifications), IdIsNot(id))
    {
      followUpLog := followUpLog[jobId := today];
      MissionProgress("m3");
      Dismiss(id);
    }

    /** Runs the command behind a notification's action. */
    method Execute(command: Command, today: int)
      requires Valid()
      ensures Valid()
      modifies this`followUpLog, this`missionState, this`dismissedIds, this`notifications
      ensures followUpLog == old(followUpLog)[command.jobId := today]
      ensures missionState == Progress(old(missionState), "m3")
      ensures dismissedIds == old(dismissedIds) + {command.notificationId}
      ensures notifications == Filter(old(notifications), IdIsNot(command.notificationId))
    {
      match command
      case ConfirmFollowUp(jobId, id) => ConfirmFollowUpSent(jobId, id, today);
    }

    /** handleDebugBackdate: the application date moves to `daysAgo` days
        before today, the job's follow-up log entry goes, and so does every
        dismissed id starting with `followup-<jobId>`. */
    method DebugBackdate(jobId: string, daysAgo: int, today: int)
      requires Valid()
      ensures Valid()
      modifies this`applicationDates, this`followUpLog, this`dismissedIds
      ensures applicationDates == old(applicationDates)[jobId := today - daysAgo]
      ensures followUpLog == old(followUpLog) - {jobId}
      ensures forall d :: d in dismissedIds <==> d in old(dismissedIds) && !StartsWith(d, "followup-" + jobId)
    {
      applicationDates := applicationDates[jobId := today - daysAgo];
      followUpLog := followUpLog - {jobId};
      dismissedIds := ClearPrefixed(dismissedIds, "followup-" + jobId);
    }

    /** handleDebugSetDeadline: every curated and general job with this id
        gets a deadline `daysRemaining` days after today, and every dismissed
        id starting with `deadline-<jobId>` goes. External jobs keep theirs. */
    method DebugSetDeadline(jobId: string, daysRemaining: int, today: int)
      requires Valid()
      ensures Valid()
      modifies this`curatedJobs, this`allJobs, this`dismissedIds
      ensures curatedJobs == WithDeadline(old(curatedJobs), jobId, today + daysRemaining)
      ensures allJobs == WithDeadline(old(allJobs), jobId, today + daysRemaining)
      ensures forall d :: d in dismissedIds <==> d in old(dismissedIds) && !StartsWith(d, "deadline-" + jobId)
    {
      curatedJobs := WithDeadline(curatedJobs, jobId, today + daysRemaining);
      allJobs := WithDeadline(allJobs, jobId, today + daysRemaining);
      dismissedIds := ClearPrefixed(dismissedIds, "deadline-" + jobId);
    }
  }

  lemma StartsWithConcat(a: string, b: string)
    ensures StartsWith(a + b, a)
  {
    assert (a + b)[..|a|] == a;
  }

  /** Every follow-up id of a job starts with the prefix its backdate
      clears; so does every follow-up id of a longer job id that extends
      this one, such as `j10` for `j1`. */
  lemma FollowUpIdPrefix(jobId: string, suffix: string, m: nat)
    ensures StartsWith(FollowUpId(jobId + suffix, m), "followup-" + jobId)
  {
    assert FollowUpId(jobId + suffix, m) == ("followup-" + jobId) + (suffix + "-" + NatToString(m));
    StartsWithConcat("followup-" + jobId, suffix + "-" + NatToString(m));
  }

  lemma DeadlineIdPrefix(jobId: string, suffix: string, m: nat)
    ensures StartsWith(DeadlineId(jobId + suffix, m), "deadline-" + jobId)
  {
    assert DeadlineId(jobId + suffix, m) == ("deadline-" + jobId) + (suffix + "-" + NatToString(m));
    StartsWithConcat("deadline-" + jobId, suffix + "-" + NatToString(m));
  }

  /** After backdating an applied job by at least 7 days (in either
      direction), the next evaluation reminds about it again, naming the
      largest milestone not above the distance. */
  lemma BackdateRevivesFollowUp(job: Job, applicationDates: map<string, int>,
                                followUpLog: map<string, int>, dismissed: set<string>,
                                daysAgo: int, today: int)
    requires Abs(daysAgo) >= 7
    requires job.id !in followUpLog
    requires forall d :: d in dismissed ==> !StartsWith(d, "followup-" + job.id)
    ensures var r := FollowUpNotice(job, applicationDates[job.id := today - daysAgo], followUpLog, dismissed, today);
      r.Some? && r.value.message.milestone <= Abs(daysAgo)
      && forall m' :: m' in FollowUpMilestones && m' <= Abs(daysAgo) ==> m' <= r.value.message.milestone
  {
    var dates := applicationDates[job.id := today - daysAgo];
    assert today - (today - daysAgo) == daysAgo;
    FollowUpMilestoneLargest(Abs(daysAgo));
    FollowUpIdPrefix(job.id, "", FollowUpMilestone(Abs(daysAgo)).value);
    assert job.id + "" == job.id;
    FollowUpRule(job, dates, followUpLog, dismissed, today);
  }

  /** After setting a curated job's deadline 1 to 28 days ahead, the next
      evaluation reminds about it unless it has been applied to. */
  lemma SetDeadlineRevivesReminder(job: Job, applied: set<string>, dismissed: set<string>,
                                   daysRemaining: int, today: int)
    requires 1 <= daysRemaining <= 28 && job.id !in applied
    requires forall d :: d in dismissed ==> !StartsWith(d, "deadline-" + job.id)
    ensures DeadlineNotice(job.(deadline := Some(today + daysRemaining)), applied, dismissed, today).Some?
  {
    var j := job.(deadline := Some(today + daysRemaining));
    assert j.deadline.value - today == daysRemaining;
    DeadlineMilestoneSmallest(daysRemaining);
    DeadlineIdPrefix(job.id, "", DeadlineMilestone(daysRemaining).value);
    assert job.id + "" == job.id;
    DeadlineRule(j, applied, dismissed, today);
  }

  /** The backdate prefix also clears a dismissed reminder of another job
      whose id extends this one. */
  lemma BackdateClearsLongerIds()
    ensures StartsWith(FollowUpId("j10", 7), "followup-" + "j1")
  {
    FollowUpIdPrefix("j1", "0", 7);
    assert "j1" + "0" == "j10";
  }
}
