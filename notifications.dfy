/** The notification pass of App.tsx: deadline reminders for curated jobs,
    follow-up reminders for applied jobs, and the merge into the live list.
    Every date is a day number, so the number of days between two dates is
    a subtraction. */
module Notifications {
  import opened Common
  import opened Strings
  import opened Lists
  import opened Types

  const DeadlineMilestones: seq<nat> := [1, 7, 14, 21, 28]
  const FollowUpMilestones: seq<nat> := [28, 21, 14, 7]

  function Abs(x: int): nat
  {
    if x < 0 then -x else x
  }

  /** `deadlineMilestones.find(m => daysUntil <= m && daysUntil > 0)`. */
  function DeadlineMilestone(daysUntil: int): Option<nat>
  {
    Find(DeadlineMilestones, (m: nat) => daysUntil <= m && daysUntil > 0)
  }

  /** The bracket test applied to the milestone that was found. */
  predicate ValidBracket(m: nat, daysUntil: int)
  {
    (m == 28 && daysUntil > 21) || (m == 21 && daysUntil > 14) || (m == 14 && daysUntil > 7)
    || (m == 7 && daysUntil > 1) || (m == 1 && daysUntil <= 1)
  }

  /** A deadline milestone is found exactly for 1..28 days ahead; it is the
      smallest milestone not below the distance, and the bracket test
      always accepts it. */
  lemma DeadlineMilestoneSmallest(daysUntil: int)
    ensures DeadlineMilestone(daysUntil).Some? <==> 1 <= daysUntil <= 28
    ensures DeadlineMilestone(daysUntil).Some? ==>
      var m := DeadlineMilestone(daysUntil).value;
      m in DeadlineMilestones && daysUntil <= m
      && (forall m' :: m' in DeadlineMilestones && daysUntil <= m' ==> m <= m')
      && ValidBracket(m, daysUntil)
  {
    var p := (m: nat) => daysUntil <= m && daysUntil > 0;
    var k := FindIndex(DeadlineMilestones, p);
    if 1 <= daysUntil <= 28 {
      assert p(DeadlineMilestones[4]);
    }
    if k.Some? {
      var m := DeadlineMilestones[k.value];
      assert forall i :: 0 <= i < k.value ==> !p(DeadlineMilestones[i]);
      assert forall m' :: m' in DeadlineMilestones ==> exists i :: 0 <= i < 5 && DeadlineMilestones[i] == m';
    }
  }

  function DeadlineSeverity(m: nat): Severity
  {
    if m == 28 || m == 21 then Info
    else if m == 14 || m == 7 then Warning
    else if m == 1 then Error
    else Info
  }

  function DeadlineId(jobId: string, m: nat): string
  {
    "deadline-" + jobId + "-" + NatToString(m)
  }

  /** The deadline reminder one curated job yields, if any. */
  function DeadlineNotice(job: Job, applied: set<string>, dismissed: set<string>, today: int): Option<Notification>
  {
    if job.deadline.None? || job.id in applied then None
    else
      var daysUntil := job.deadline.value - today;
      match DeadlineMilestone(daysUntil)
      case None => None
      case Some(m) =>
        if !ValidBracket(m, daysUntil) then None
        else
          var id := DeadlineId(job.id, m);
          if id in dismissed then None
          else Some(Notification(id, DeadlineSeverity(m),
                                 DeadlineReminder(m, job.company, job.title, job.deadline.value), None))
  }

  /** The deadline rule: a curated job yields a reminder exactly when its
      deadline is a date, it has not been applied to, the deadline is 1 to
      28 days ahead, and the reminder's id is not dismissed. The reminder
      names the smallest milestone not below the distance, has an id built
      from the job id and that milestone, the milestone's severity and no
      action. */
  lemma DeadlineRule(job: Job, applied: set<string>, dismissed: set<string>, today: int)
    ensures var r := DeadlineNotice(job, applied, dismissed, today);
      r.Some? <==>
        job.deadline.Some? && job.id !in applied && 1 <= job.deadline.value - today <= 28
        && DeadlineId(job.id, DeadlineMilestone(job.deadline.value - today).value) !in dismissed
    ensures var r := DeadlineNotice(job, applied, dismissed, today);
      r.Some? ==>
        var d := job.deadline.value - today;
        var m := r.value.message.milestone;
        r.value.message.DeadlineReminder? && m in DeadlineMilestones && d <= m
        && (forall m' :: m' in DeadlineMilestones && d <= m' ==> m <= m')
        && r.value.id == DeadlineId(job.id, m) && r.value.kind == DeadlineSeverity(m)
        && r.value.action.None? && r.value.id !in dismissed
  {
    var r := DeadlineNotice(job, applied, dismissed, today);
    if job.deadline.None? || job.id in applied {
      assert r.None?;
    } else {
      var daysUntil := job.deadline.value - today;
      DeadlineMilestoneSmallest(daysUntil);
      if DeadlineMilestone(daysUntil).None? {
        assert r.None?;
      } else {
        var m := DeadlineMilestone(daysUntil).value;
        assert ValidBracket(m, daysUntil);
        var id := DeadlineId(job.id, m);
        if id in dismissed {
          assert r.None?;
        } else {
          assert r == Some(Notification(id, DeadlineSeverity(m),
                                        DeadlineReminder(m, job.company, job.title, job.deadline.value), None));
        }
      }
    }
  }

  /** The deadline severities: 28 and 21 days are informational, 14 and 7
      a warning, the last day an error. */
  lemma DeadlineSeverities()
    ensures DeadlineSeverity(28) == Info && DeadlineSeverity(21) == Info
    ensures DeadlineSeverity(14) == Warning && DeadlineSeverity(7) == Warning
    ensures DeadlineSeverity(1) == Error
  {
  }

  /** `followUpMilestones.find(m => daysAgo >= m)`. */
  function FollowUpMilestone(daysAgo: int): Option<nat>
  {
    Find(FollowUpMilestones, (m: nat) => daysAgo >= m)
  }

  /** A follow-up milestone is found exactly from 7 days on, and it is the
      largest milestone not above the distance. */
  lemma FollowUpMilestoneLargest(daysAgo: int)
    ensures FollowUpMilestone(daysAgo).Some? <==> daysAgo >= 7
    ensures FollowUpMilestone(daysAgo).Some? ==>
      var m := FollowUpMilestone(daysAgo).value;
      m in FollowUpMilestones && m <= daysAgo
      && forall m' :: m' in FollowUpMilestones && m' <= daysAgo ==> m' <= m
  {
    var p := (m: nat) => daysAgo >= m;
    var k := FindIndex(FollowUpMilestones, p);
    if daysAgo >= 7 {
      assert p(FollowUpMilestones[3]);
    }
    if k.Some? {
      assert forall i :: 0 <= i < k.value ==> !p(FollowUpMilestones[i]);
      assert forall m' :: m' in FollowUpMilestones ==> exists i :: 0 <= i < 4 && FollowUpMilestones[i] == m';
    }
  }

  function FollowUpSeverity(m: nat): Severity
  {
    if m == 7 || m == 14 then Info
    else if m == 21 then Warning
    else if m == 28 then Error
    else Info
  }

  lemma FollowUpSeverities()
    ensures FollowUpSeverity(7) == Info && FollowUpSeverity(14) == Info
    ensures FollowUpSeverity(21) == Warning && FollowUpSeverity(28) == Error
  {
  }

  function FollowUpId(jobId: string, m: nat): string
  {
    "followup-" + jobId + "-" + NatToString(m)
  }

  /** The date a follow-up is counted from: the recorded application date,
      else the job's own `dateApplied`, else none. */
  function AppliedDate(job: Job, applicationDates: map<string, int>): (r: Option<int>)
    ensures job.id in applicationDates ==> r == Some(applicationDates[job.id])
    ensures job.id !in applicationDates ==> r == job.dateApplied
  {
    if job.id in applicationDates then Some(applicationDates[job.id]) else job.dateApplied
  }

  /** The follow-up reminder one applied job yields, if any. */
  function FollowUpNotice(job: Job, applicationDates: map<string, int>, followUpLog: map<string, int>,
                          dismissed: set<string>, today: int): Option<Notification>
  {
    if job.id in followUpLog then None
    else match AppliedDate(job, applicationDates)
      case None => None
      case Some(date) =>
        match FollowUpMilestone(Abs(today - date))
        case None => None
        case Some(m) =>
          var id := FollowUpId(job.id, m);
          if id in dismissed then None
          else Some(Notification(id, FollowUpSeverity(m), FollowUpReminder(m, job.company),
                                 Some(ConfirmFollowUp(job.id, id))))
  }

  /** The follow-up rule: a job yields a reminder exactly when it has no
      follow-up log entry, it has an application date, that date is at
      least 7 days away from today in either direction, and the id is not
      dismissed. The reminder names the largest milestone not above the
      distance and carries the command that confirms the follow-up. */
  lemma FollowUpRule(job: Job, applicationDates: map<string, int>, followUpLog: map<string, int>,
                     dismissed: set<string>, today: int)
    ensures var r := FollowUpNotice(job, applicationDates, followUpLog, dismissed, today);
      var date := AppliedDate(job, applicationDates);
      r.Some? <==>
        job.id !in followUpLog && date.Some? && Abs(today - date.value) >= 7
        && FollowUpId(job.id, FollowUpMilestone(Abs(today - date.value)).value) !in dismissed
    ensures var r := FollowUpNotice(job, applicationDates, followUpLog, dismissed, today);
      var date := AppliedDate(job, applicationDates);
      r.Some? ==>
        var daysAgo := Abs(today - date.value);
        var m := r.value.message.milestone;
        r.value.message.FollowUpReminder? && m in FollowUpMilestones && m <= daysAgo
        && (forall m' :: m' in FollowUpMilestones && m' <= daysAgo ==> m' <= m)
        && r.value.id == FollowUpId(job.id, m) && r.value.kind == FollowUpSeverity(m)
        && r.value.action == Some(ConfirmFollowUp(job.id, r.value.id)) && r.value.id !in dismissed
  {
    var date := AppliedDate(job, applicationDates);
    if job.id !in followUpLog && date.Some? {
      var daysAgo := Abs(today - date.value);
      FollowUpMilestoneLargest(daysAgo);
      if FollowUpMilestone(daysAgo).Some? {
        var m := FollowUpMilestone(daysAgo).value;
        var id := FollowUpId(job.id, m);
        assert FollowUpNotice(job, applicationDates, followUpLog, dismissed, today) ==
          if id in dismissed then None
          else Some(Notification(id, FollowUpSeverity(m), FollowUpReminder(m, job.company),
                                 Some(ConfirmFollowUp(job.id, id))));
      }
    }
  }

  /** The rules as values that can be mapped over a job list. */
  function DeadlineRuleFor(applied: set<string>, dismissed: set<string>, today: int): Job -> Option<Notification>
  {
    job => DeadlineNotice(job, applied, dismissed, today)
  }

  function FollowUpRuleFor(applicationDates: map<string, int>, followUpLog: map<string, int>,
                           dismissed: set<string>, today: int): Job -> Option<Notification>
  {
    job => FollowUpNotice(job, applicationDates, followUpLog, dismissed, today)
  }

  /** What a `forEach` that pushes at most one notification per job
      collects, in job order. */
  function Collect(jobs: seq<Job>, rule: Job -> Option<Notification>): (r: seq<Notification>)
    ensures |r| <= |jobs|
    decreases |jobs|
  {
    if jobs == [] then []
    else
      var init := jobs[..|jobs| - 1];
      var last := jobs[|jobs| - 1];
      Collect(init, rule) + (match rule(last) case None => [] case Some(n) => [n])
  }

  /** The collected notifications are exactly those some job yields. */
  lemma {:induction false} CollectMembers(jobs: seq<Job>, rule: Job -> Option<Notification>)
    ensures forall n :: n in Collect(jobs, rule) <==> exists j :: j in jobs && rule(j) == Some(n)
    decreases |jobs|
  {
    if jobs != [] {
      var init := jobs[..|jobs| - 1];
      var last := jobs[|jobs| - 1];
      CollectMembers(init, rule);
      assert jobs == init + [last];
    }
  }

  /** One more loop round collects the next job's notification. */
  lemma CollectSnoc(jobs: seq<Job>, i: nat, rule: Job -> Option<Notification>)
    requires i < |jobs|
    ensures Collect(jobs[..i + 1], rule) ==
      Collect(jobs[..i], rule) + (match rule(jobs[i]) case None => [] case Some(n) => [n])
  {
    assert jobs[..i + 1][..i] == jobs[..i];
  }

  function AppliedPredicate(applied: set<string>): Job -> bool
  {
    (j: Job) => j.id in applied
  }

  /** `[...allJobs, ...curatedJobs, ...externalJobs].filter(applied)`: a job
      listed in several of the lists occurs once per listing. */
  function AppliedJobs(allJobs: seq<Job>, curatedJobs: seq<Job>, externalJobs: seq<Job>,
                       applied: set<string>): seq<Job>
  {
    Filter(allJobs + curatedJobs + externalJobs, AppliedPredicate(applied))
  }

  /** The notifications one evaluation computes: every deadline reminder,
      then every follow-up reminder. */
  function Pass(curatedJobs: seq<Job>, allJobs: seq<Job>, externalJobs: seq<Job>, applied: set<string>,
                applicationDates: map<string, int>, followUpLog: map<string, int>,
                dismissed: set<string>, today: int): seq<Notification>
  {
    Collect(curatedJobs, DeadlineRuleFor(applied, dismissed, today))
    + Collect(AppliedJobs(allJobs, curatedJobs, externalJobs, applied),
              FollowUpRuleFor(applicationDates, followUpLog, dismissed, today))
  }

  /** One `forEach` over a job list that pushes the notification, if any,
      that the rule yields for each job. */
  method CollectLoop(jobs: seq<Job>, rule: Job -> Option<Notification>) returns (pushed: seq<Notification>)
    ensures pushed == Collect(jobs, rule)
  {
    pushed := [];
    for i := 0 to |jobs|
      invariant pushed == Collect(jobs[..i], rule)
    {
      CollectSnoc(jobs, i, rule);
      var r := rule(jobs[i]);
      if r.Some? {
        pushed := pushed + [r.value];
      }
    }
    assert jobs[..|jobs|] == jobs;
  }

  /** The two `forEach` loops of the notification effect. */
  method Evaluate(curatedJobs: seq<Job>, allJobs: seq<Job>, externalJobs: seq<Job>, applied: set<string>,
                  applicationDates: map<string, int>, followUpLog: map<string, int>,
                  dismissed: set<string>, today: int)
    returns (computed: seq<Notification>)
    ensures computed == Pass(curatedJobs, allJobs, externalJobs, applied, applicationDates,
                             followUpLog, dismissed, today)
  {
    var deadlines := CollectLoop(curatedJobs, DeadlineRuleFor(applied, dismissed, today));
    var appliedJobs := AppliedJobs(allJobs, curatedJobs, externalJobs, applied);
    var followUps := CollectLoop(appliedJobs, FollowUpRuleFor(applicationDates, followUpLog, dismissed, today));
    computed := deadlines + followUps;
  }

  /** Nothing an evaluation computes carries a dismissed id. */
  lemma PassAvoidsDismissed(curatedJobs: seq<Job>, allJobs: seq<Job>, externalJobs: seq<Job>,
                            applied: set<string>, applicationDates: map<string, int>,
                            followUpLog: map<string, int>, dismissed: set<string>, today: int)
    ensures var computed := Pass(curatedJobs, allJobs, externalJobs, applied, applicationDates,
                                 followUpLog, dismissed, today);
      forall n :: n in computed ==> n.id !in dismissed
  {
    forall job: Job
      ensures var r := DeadlineNotice(job, applied, dismissed, today); r.Some? ==> r.value.id !in dismissed
      ensures var r := FollowUpNotice(job, applicationDates, followUpLog, dismissed, today);
        r.Some? ==> r.value.id !in dismissed
    {
      DeadlineRule(job, applied, dismissed, today);
      FollowUpRule(job, applicationDates, followUpLog, dismissed, today);
    }
    CollectMembers(curatedJobs, DeadlineRuleFor(applied, dismissed, today));
    CollectMembers(AppliedJobs(allJobs, curatedJobs, externalJobs, applied),
                   FollowUpRuleFor(applicationDates, followUpLog, dismissed, today));
  }

  /** A job with a follow-up log entry yields no follow-up reminder. */
  lemma LoggedJobsAreQuiet(curatedJobs: seq<Job>, allJobs: seq<Job>, externalJobs: seq<Job>,
                           applied: set<string>, applicationDates: map<string, int>,
                           followUpLog: map<string, int>, dismissed: set<string>, today: int,
                           jobId: string)
    requires jobId in followUpLog
    ensures var computed := Pass(curatedJobs, allJobs, externalJobs, applied, applicationDates,
                                 followUpLog, dismissed, today);
      forall n :: n in computed ==> n.action != Some(ConfirmFollowUp(jobId, n.id))
  {
    forall job: Job
      ensures var r := DeadlineNotice(job, applied, dismissed, today); r.Some? ==> r.value.action.None?
      ensures var r := FollowUpNotice(job, applicationDates, followUpLog, dismissed, today);
        r.Some? ==> r.value.action == Some(ConfirmFollowUp(job.id, r.value.id)) && job.id != jobId
    {
      DeadlineRule(job, applied, dismissed, today);
      FollowUpRule(job, applicationDates, followUpLog, dismissed, today);
    }
    CollectMembers(curatedJobs, DeadlineRuleFor(applied, dismissed, today));
    CollectMembers(AppliedJobs(allJobs, curatedJobs, externalJobs, applied),
                   FollowUpRuleFor(applicationDates, followUpLog, dismissed, today));
  }

  /** The ids present in a notification list. */
  function Ids(ns: seq<Notification>): set<string>
  {
    set n | n in ns :: n.id
  }

  function IdNotIn(ids: set<string>): Notification -> bool
  {
    (n: Notification) => n.id !in ids
  }

  /** `merged = [...prev]` followed by a push of every computed notification
      whose id was not in `prev`. Ids are looked up in `prev` only, so two
      computed notifications with the same new id are both appended. */
  method Merge(prev: seq<Notification>, computed: seq<Notification>) returns (merged: seq<Notification>)
    ensures merged == prev + Filter(computed, IdNotIn(Ids(prev)))
  {
    var existingIds := Ids(prev);
    merged := prev;
    for i := 0 to |computed|
      invariant merged == prev + Filter(computed[..i], IdNotIn(existingIds))
    {
      FilterPrefixSnoc(computed, i, IdNotIn(existingIds));
      if computed[i].id !in existingIds {
        merged := merged + [computed[i]];
      }
    }
    assert computed[..|computed|] == computed;
  }

  function MergeOf(prev: seq<Notification>, computed: seq<Notification>): seq<Notification>
  {
    prev + Filter(computed, IdNotIn(Ids(prev)))
  }

  /** The merge keeps the previous list as a prefix; every notification
      occurs as often as it did before, plus as often as it was computed
      when its id is new; so duplicates inside one pass are kept. */
  lemma MergeCounts(prev: seq<Notification>, computed: seq<Notification>)
    ensures prev <= MergeOf(prev, computed)
    ensures forall n ::
      multiset(MergeOf(prev, computed))[n] ==
        multiset(prev)[n] + (if n.id in Ids(prev) then 0 else multiset(computed)[n])
    ensures forall n :: n in MergeOf(prev, computed) <==> n in prev || (n in computed && n.id !in Ids(prev))
  {
    FilterCounts(computed, IdNotIn(Ids(prev)));
  }

  /** Merging the same computed notifications a second time appends
      nothing. */
  lemma MergeIdempotent(prev: seq<Notification>, computed: seq<Notification>)
    ensures MergeOf(MergeOf(prev, computed), computed) == MergeOf(prev, computed)
  {
    var once := MergeOf(prev, computed);
    forall i | 0 <= i < |computed| ensures !IdNotIn(Ids(once))(computed[i]) {
      var n := computed[i];
      if n.id !in Ids(prev) {
        assert n in Filter(computed, IdNotIn(Ids(prev)));
        assert n in once;
      } else {
        var q :| q in prev && q.id == n.id;
        assert q in once;
      }
    }
    FilterNone(computed, IdNotIn(Ids(once)));
  }

  /** Every listing of a job that the rule fires on contributes one copy of
      its notification. */
  lemma {:induction false} CollectCount(jobs: seq<Job>, rule: Job -> Option<Notification>, job: Job)
    requires rule(job).Some?
    ensures multiset(Collect(jobs, rule))[rule(job).value] >= multiset(jobs)[job]
    decreases |jobs|
  {
    if jobs != [] {
      var init := jobs[..|jobs| - 1];
      var last := jobs[|jobs| - 1];
      CollectCount(init, rule, job);
      assert jobs == init + [last];
      assert multiset(jobs) == multiset(init) + multiset{last};
    }
  }

  /** An applied job on both the general and the curated list gets its
      follow-up reminder twice in one pass, and a merge into any live list
      that lacks the reminder's id appends both copies. */
  lemma DuplicateListingsDuplicateReminders(prev: seq<Notification>, job: Job, curatedJobs: seq<Job>,
                                            allJobs: seq<Job>, externalJobs: seq<Job>, applied: set<string>,
                                            applicationDates: map<string, int>, followUpLog: map<string, int>,
                                            dismissed: set<string>, today: int)
    requires job in allJobs && job in curatedJobs && job.id in applied
    requires FollowUpNotice(job, applicationDates, followUpLog, dismissed, today).Some?
    requires FollowUpNotice(job, applicationDates, followUpLog, dismissed, today).value.id !in Ids(prev)
    ensures var n := FollowUpNotice(job, applicationDates, followUpLog, dismissed, today).value;
      var computed := Pass(curatedJobs, allJobs, externalJobs, applied, applicationDates,
                           followUpLog, dismissed, today);
      multiset(computed)[n] >= 2 && multiset(MergeOf(prev, computed))[n] >= multiset(prev)[n] + 2
  {
    var rule := FollowUpRuleFor(applicationDates, followUpLog, dismissed, today);
    var n := rule(job).value;
    var listed := allJobs + curatedJobs + externalJobs;
    assert multiset(listed)[job] >= 2 by {
      assert multiset(listed) == multiset(allJobs) + multiset(curatedJobs) + multiset(externalJobs);
    }
    var appliedJobs := AppliedJobs(allJobs, curatedJobs, externalJobs, applied);
    FilterCounts(listed, AppliedPredicate(applied));
    assert multiset(appliedJobs)[job] >= 2;
    CollectCount(appliedJobs, rule, job);
    var computed := Pass(curatedJobs, allJobs, externalJobs, applied, applicationDates,
                         followUpLog, dismissed, today);
    assert multiset(computed) ==
      multiset(Collect(curatedJobs, DeadlineRuleFor(applied, dismissed, today))) + multiset(Collect(appliedJobs, rule));
    MergeCounts(prev, computed);
  }

  function IdIsNot(id: string): Notification -> bool
  {
    (n: Notification) => n.id != id
  }

  /** A dismissed id stays out: once it is dismissed and removed from the
      live list, a later evaluation and merge do not bring it back. */
  lemma DismissedStaysGone(prev: seq<Notification>, curatedJobs: seq<Job>, allJobs: seq<Job>,
                           externalJobs: seq<Job>, applied: set<string>,
                           applicationDates: map<string, int>, followUpLog: map<string, int>,
                           dismissed: set<string>, today: int, id: string)
    ensures var live := Filter(prev, IdIsNot(id));
      var computed := Pass(curatedJobs, allJobs, externalJobs, applied, applicationDates,
                           followUpLog, dismissed + {id}, today);
      forall n :: n in MergeOf(live, computed) ==> n.id != id
  {
    PassAvoidsDismissed(curatedJobs, allJobs, externalJobs, applied, applicationDates,
                        followUpLog, dismissed + {id}, today);
  }
}
