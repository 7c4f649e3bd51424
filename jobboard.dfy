/** The job board of components/JobBoard.tsx: the keyword match score, the
    four select filters, and the option lists the filters offer. */
module JobBoard {
  import opened Common
  import opened Strings
  import opened Lists
  import opened Types

  /** `String(job.industry)` inside the concatenation: an absent industry
      contributes the text "undefined". */
  function IndustryText(industry: Option<string>): string
  {
    if industry.None? then "undefined" else industry.value
  }

  /** The lowercased text a job is matched against. */
  function JobText(job: Job): string
  {
    Lower(job.title + " " + job.description + " " + IndustryText(job.industry))
  }

  /** The aspiration words: `aspirations.split(' ')`, or none when the
      aspirations are empty. */
  function AspirationWords(aspirations: string): seq<string>
  {
    if aspirations == "" then [] else Split(aspirations, " ")
  }

  function LowerAll(xs: seq<string>): (r: seq<string>)
    ensures |r| == |xs| && forall i :: 0 <= i < |xs| ==> r[i] == Lower(xs[i])
  {
    seq(|xs|, i requires 0 <= i < |xs| => Lower(xs[i]))
  }

  /** The user's keywords, lowercased, duplicates included. */
  function Keywords(user: User): seq<string>
  {
    LowerAll(user.interests + user.coreCompetencies + user.softSkills + AspirationWords(user.aspirations))
  }

  function IsHit(jobText: string): string -> bool
  {
    (k: string) => Utf16Length(k) > 3 && Contains(jobText, k)
  }

  /** The distinct lowercased keywords longer than three UTF-16 code units that
      occur in the job text. */
  function MatchedKeywords(job: Job, user: User): set<string>
  {
    Matched(Keywords(user), JobText(job))
  }

  function Matched(keywords: seq<string>, text: string): set<string>
  {
    set k | k in keywords && Utf16Length(k) > 3 && Contains(text, k)
  }

  /** The distinct elements of `xs` satisfying `p`. */
  function Satisfying<T(!new)>(xs: seq<T>, p: T -> bool): set<T>
  {
    set x | x in xs && p(x)
  }

  lemma {:induction false} DistinctFilterCard<T(!new)>(xs: seq<T>, p: T -> bool)
    requires NoDups(xs)
    ensures |Filter(xs, p)| == |Satisfying(xs, p)|
  {
    if xs != [] {
      var rest := xs[1..];
      DistinctTail(xs);
      DistinctFilterCard(rest, p);
      SatisfyingCons(xs, p);
    }
  }

  lemma DistinctTail<T(!new)>(xs: seq<T>)
    requires NoDups(xs) && xs != []
    ensures NoDups(xs[1..]) && xs[0] !in xs[1..]
  {
    var rest := xs[1..];
    forall i, j | 0 <= i < j < |rest| ensures rest[i] != rest[j] {
      assert rest[i] == xs[i + 1] && rest[j] == xs[j + 1];
    }
    forall j | 0 <= j < |rest| ensures rest[j] != xs[0] {
      assert rest[j] == xs[j + 1];
    }
  }

  /** The first element adds itself to the satisfying set exactly when it
      satisfies `p`. */
  lemma SatisfyingCons<T(!new)>(xs: seq<T>, p: T -> bool)
    requires xs != []
    ensures Satisfying(xs, p) == (if p(xs[0]) then {xs[0]} else {}) + Satisfying(xs[1..], p)
  {
    assert xs == [xs[0]] + xs[1..];
  }

  /** The `uniqueKeywords.forEach` loop that counts the hits. */
  method CountHits(keywords: seq<string>, jobText: string) returns (hits: nat)
    ensures hits == |Filter(keywords, IsHit(jobText))|
  {
    hits := 0;
    for i := 0 to |keywords|
      invariant hits == |Filter(keywords[..i], IsHit(jobText))|
    {
      FilterPrefixSnoc(keywords, i, IsHit(jobText));
      if Utf16Length(keywords[i]) > 3 && Contains(jobText, keywords[i]) {
        hits := hits + 1;
      }
    }
    assert keywords[..|keywords|] == keywords;
  }

  lemma DedupFilterCard<T(!new)>(xs: seq<T>, p: T -> bool)
    ensures |Filter(Dedup(xs), p)| == |Satisfying(xs, p)|
  {
    DistinctFilterCard(Dedup(xs), p);
    assert Satisfying(Dedup(xs), p) == Satisfying(xs, p);
  }

  /** Counting over the deduplicated keywords counts the distinct matched
      keywords. */
  lemma HitsAreMatched(keywords: seq<string>, text: string)
    ensures |Filter(Dedup(keywords), IsHit(text))| == |Matched(keywords, text)|
  {
    var hit := IsHit(text);
    DedupFilterCard(keywords, hit);
    assert Satisfying(keywords, hit) == Matched(keywords, text);
  }

  /** calculateMatchScore: fifty plus five per distinct matched keyword,
      capped at 98; so the score lies in 50..98, and keywords that agree
      after lowercasing count once. */
  method MatchScore(job: Job, user: User) returns (score: int)
    ensures score == if 50 + 5 * |MatchedKeywords(job, user)| < 98 then 50 + 5 * |MatchedKeywords(job, user)| else 98
    ensures 50 <= score <= 98
  {
    var hits := CountHits(Dedup(Keywords(user)), JobText(job));
    HitsAreMatched(Keywords(user), JobText(job));
    score := if 98 < 50 + hits * 5 then 98 else 50 + hits * 5;
  }

  /** The four select values; the empty string means "any". */
  datatype JobFilters = JobFilters(industry: string, mode: string, visa: string, status: string)

  const ClearedFilters := JobFilters("", "", "", "")

  predicate FieldMatches(wanted: string, actual: Option<string>)
  {
    wanted == "" || actual == Some(wanted)
  }

  function MatchesFilters(f: JobFilters): Job -> bool
  {
    (job: Job) => FieldMatches(f.industry, job.industry) && FieldMatches(f.mode, job.mode)
                  && FieldMatches(f.visa, Some(job.visa)) && FieldMatches(f.status, job.status)
  }

  /** filteredJobs. */
  function FilteredJobs(allJobs: seq<Job>, f: JobFilters): seq<Job>
  {
    Filter(allJobs, MatchesFilters(f))
  }

  /** The filtered jobs are an order-preserving subsequence of all jobs,
      holding exactly the jobs that equal every non-empty filter field. */
  lemma FilteredJobsSpec(allJobs: seq<Job>, f: JobFilters)
    ensures Subseq(FilteredJobs(allJobs, f), allJobs)
    ensures forall job :: job in FilteredJobs(allJobs, f) <==>
      job in allJobs
      && (f.industry == "" || job.industry == Some(f.industry))
      && (f.mode == "" || job.mode == Some(f.mode))
      && (f.visa == "" || job.visa == f.visa)
      && (f.status == "" || job.status == Some(f.status))
  {
    FilterSubseq(allJobs, MatchesFilters(f));
  }

  /** After clearFilters every job is shown, in its original order. */
  lemma ClearFiltersShowsAll(allJobs: seq<Job>)
    ensures FilteredJobs(allJobs, ClearedFilters) == allJobs
  {
    FilterKeepsAll(allJobs, MatchesFilters(ClearedFilters));
  }

  /** `.filter(Boolean)` on optional strings: the present, non-empty ones. */
  function PresentValues(xs: seq<Option<string>>): (r: seq<string>)
    ensures forall s :: s in r <==> s != "" && Some(s) in xs
  {
    if xs == [] then []
    else
      assert xs == [xs[0]] + xs[1..];
      (if xs[0].Some? && xs[0].value != "" then [xs[0].value] else []) + PresentValues(xs[1..])
  }

  function Industries(jobs: seq<Job>): seq<Option<string>>
  {
    seq(|jobs|, i requires 0 <= i < |jobs| => jobs[i].industry)
  }

  function Modes(jobs: seq<Job>): seq<Option<string>>
  {
    seq(|jobs|, i requires 0 <= i < |jobs| => jobs[i].mode)
  }

  function Visas(jobs: seq<Job>): seq<Option<string>>
  {
    seq(|jobs|, i requires 0 <= i < |jobs| => Some(jobs[i].visa))
  }

  /** `Array.from(new Set(values.filter(Boolean)))`. */
  function OptionList(values: seq<Option<string>>): seq<string>
  {
    Dedup(PresentValues(values))
  }

  /** An option list holds each non-empty value once, in the order of its
      first occurrence, and nothing else. */
  lemma OptionListSpec(values: seq<Option<string>>)
    ensures NoDups(OptionList(values))
    ensures forall s :: s in OptionList(values) <==> s != "" && Some(s) in values
    ensures var present := PresentValues(values);
      forall i, j :: 0 <= i < j < |OptionList(values)| ==>
        FirstIndex(present, OptionList(values)[i]) < FirstIndex(present, OptionList(values)[j])
  {
    DedupFirstOccurrenceOrder(PresentValues(values));
  }

  /** The industry options are the non-empty industries of the jobs. */
  lemma IndustryOptions(jobs: seq<Job>)
    ensures forall s :: s in OptionList(Industries(jobs)) <==>
      s != "" && exists j :: j in jobs && j.industry == Some(s)
  {
    forall s ensures Some(s) in Industries(jobs) <==> exists j :: j in jobs && j.industry == Some(s) {
      if Some(s) in Industries(jobs) {
        var i :| 0 <= i < |jobs| && Industries(jobs)[i] == Some(s);
        assert jobs[i] in jobs;
      }
      if exists j :: j in jobs && j.industry == Some(s) {
        var j :| j in jobs && j.industry == Some(s);
        var i :| 0 <= i < |jobs| && jobs[i] == j;
        assert Industries(jobs)[i] == Some(s);
      }
    }
  }
}
