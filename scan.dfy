/** The deterministic parts of the simulated e-mail scan in App.tsx: the
    subject filter for mailbox messages, the jobs a simulated update may
    pick, and the outcome chosen from a random number in [0, 1). */
module Scan {
  import opened Strings
  import opened Lists
  import opened Types
  import opened Common

  /** A subject that mentions an application, an update or an interview,
      in any ASCII case. */
  predicate IsRelevantSubject(subject: string)
  {
    var lower := Lower(subject);
    Contains(lower, "application") || Contains(lower, "update") || Contains(lower, "interview")
  }

  function RelevantEmails(subjects: seq<string>): seq<string>
  {
    Filter(subjects, IsRelevantSubject)
  }

  /** The relevant messages are the matching subjects, in mailbox order. */
  lemma RelevantEmailsSpec(subjects: seq<string>)
    ensures Subseq(RelevantEmails(subjects), subjects)
    ensures forall s :: s in RelevantEmails(subjects) <==> s in subjects && IsRelevantSubject(s)
  {
    FilterSubseq(subjects, IsRelevantSubject);
  }

  /** The subject filter ignores ASCII case. */
  lemma RelevanceIgnoresCase(subject: string)
    ensures IsRelevantSubject(Lower(subject)) == IsRelevantSubject(subject)
  {
    assert Lower(Lower(subject)) == Lower(subject);
  }

  function IsApplied(applied: set<string>): Job -> bool
  {
    (j: Job) => j.id in applied
  }

  /** trackableJobs: the applied jobs of the general and curated lists,
      then every external job. */
  function TrackableJobs(allJobs: seq<Job>, curatedJobs: seq<Job>, externalJobs: seq<Job>, applied: set<string>): seq<Job>
  {
    Filter(allJobs + curatedJobs, IsApplied(applied)) + externalJobs
  }

  lemma TrackableJobsSpec(allJobs: seq<Job>, curatedJobs: seq<Job>, externalJobs: seq<Job>, applied: set<string>)
    ensures forall j :: j in TrackableJobs(allJobs, curatedJobs, externalJobs, applied) <==>
      ((j in allJobs || j in curatedJobs) && j.id in applied) || j in externalJobs
  {
  }

  datatype Outcome = NoUpdate | NextStage | Rejected

  /** The outcome for a draw: above 0.8 a rejection, above 0.6 a next
      stage, otherwise no update. */
  function OutcomeOf(rand: real): (r: Outcome)
    ensures r == NoUpdate <==> rand <= 0.6
    ensures r == Rejected <==> rand > 0.8
  {
    if rand > 0.6 then (if rand > 0.8 then Rejected else NextStage) else NoUpdate
  }

  function Rank(o: Outcome): nat
  {
    match o
    case NoUpdate => 0
    case NextStage => 1
    case Rejected => 2
  }

  /** A larger draw never yields a milder outcome; each outcome has a
      draw that yields it. */
  lemma OutcomeMonotone(a: real, b: real)
    requires a <= b
    ensures Rank(OutcomeOf(a)) <= Rank(OutcomeOf(b))
    ensures OutcomeOf(0.5) == NoUpdate && OutcomeOf(0.7) == NextStage && OutcomeOf(0.9) == Rejected
  {
  }

  /** A job whose status or stage is "Offer" gets no simulated update. */
  function ScanOutcome(job: Job, rand: real): (r: Option<Outcome>)
    ensures r.None? <==> job.applicationStatus == Some("Offer") || job.stage == Some("Offer")
    ensures r.Some? ==> r.value == OutcomeOf(rand)
  {
    if job.applicationStatus == Some("Offer") || job.stage == Some("Offer") then None
    else Some(OutcomeOf(rand))
  }
}
