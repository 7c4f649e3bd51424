/** The onboarding wizard of components/Onboarding.tsx: the step counter,
    the list and work-style toggles, the interest list it displays, and the
    merge of a CV analysis into the form. */
module Onboarding {
  import opened Common
  import opened Strings
  import opened Lists
  import opened Types

  /** The wizard has four steps: identity, focus, assets, voice. */
  const StepCount := 4

  const PredefinedInterests: seq<string> := [
    "FinTech", "Consulting", "Product Management", "Sustainable Energy",
    "Venture Capital", "Private Equity", "Healthcare", "Marketing",
    "Data Science", "Artificial Intelligence", "Social Impact", "Real Estate",
    "E-commerce", "Blockchain", "Strategy"
  ]

  datatype NextOutcome = Advanced(step: int) | Completed

  /** handleNext: advance, or hand the form over at the last step. */
  function NextStep(step: int): (r: NextOutcome)
    ensures 0 <= step < StepCount ==> (r.Advanced? ==> 0 <= r.step < StepCount)
    ensures r.Completed? <==> step >= StepCount - 1
    ensures r.Advanced? ==> r.step == step + 1
  {
    if step < StepCount - 1 then Advanced(step + 1) else Completed
  }

  /** handleBack: go back one step, except at the first. */
  function BackStep(step: int): (r: int)
    ensures 0 <= step < StepCount ==> 0 <= r < StepCount
    ensures step <= 0 ==> r == step
    ensures step > 0 ==> r == step - 1
  {
    if step > 0 then step - 1 else step
  }

  /** The wizard's step counter together with the form it edits. */
  class Wizard {
    var currentStep: int
    var formData: User

    predicate Valid()
      reads this
    {
      0 <= currentStep < StepCount
    }

    constructor (initialUser: User)
      ensures Valid() && currentStep == 0 && formData == initialUser
    {
      currentStep := 0;
      formData := initialUser;
    }

    /** Next: on the last step the form is handed over and the step stays;
        otherwise the step advances. */
    method Next() returns (completed: Option<User>)
      requires Valid()
      modifies this`currentStep
      ensures Valid()
      ensures completed.Some? <==> old(currentStep) == StepCount - 1
      ensures completed.Some? ==> completed.value == formData && currentStep == old(currentStep)
      ensures completed.None? ==> currentStep == old(currentStep) + 1
    {
      match NextStep(currentStep)
      case Advanced(s) =>
        currentStep := s;
        completed := None;
      case Completed =>
        completed := Some(formData);
    }

    method Back()
      requires Valid()
      modifies this`currentStep
      ensures Valid() && currentStep == BackStep(old(currentStep))
    {
      currentStep := BackStep(currentStep);
    }

    /** Replaces the form by the result of one of the updaters below. */
    method Update(next: User)
      modifies this`formData
      ensures formData == next
    {
      formData := next;
    }
  }

  datatype ListField = Interests | CoreCompetencies | SoftSkills

  function GetList(u: User, field: ListField): seq<string>
  {
    match field
    case Interests => u.interests
    case CoreCompetencies => u.coreCompetencies
    case SoftSkills => u.softSkills
  }

  function SetList(u: User, field: ListField, xs: seq<string>): User
  {
    match field
    case Interests => u.(interests := xs)
    case CoreCompetencies => u.(coreCompetencies := xs)
    case SoftSkills => u.(softSkills := xs)
  }

  /** toggleArrayItem: a present item loses every occurrence, an absent
      one is put first, and no other field changes. */
  function ToggleArrayItem(u: User, field: ListField, item: string): (r: User)
    ensures SetList(r, field, GetList(u, field)) == u
    ensures item in GetList(u, field) ==> GetList(r, field) == Filter(GetList(u, field), Except(item))
    ensures item !in GetList(u, field) ==> GetList(r, field) == [item] + GetList(u, field)
    ensures item in GetList(r, field) <==> item !in GetList(u, field)
    ensures forall y :: y != item ==> multiset(GetList(r, field))[y] == multiset(GetList(u, field))[y]
  {
    ToggleFlips(GetList(u, field), item);
    SetList(u, field, ToggleFront(GetList(u, field), item))
  }

  /** Toggling an absent item twice restores the form. */
  lemma ToggleArrayItemTwice(u: User, field: ListField, item: string)
    requires item !in GetList(u, field)
    ensures ToggleArrayItem(ToggleArrayItem(u, field, item), field, item) == u
  {
    ToggleFrontTwice(GetList(u, field), item);
  }

  function NonEmpty(s: string): bool { s != "" }

  /** `workStyle.split(', ').filter(Boolean)`. */
  function WorkStyles(workStyle: string): (r: seq<string>)
    ensures forall s :: s in r ==> s != "" && !Contains(s, ", ")
  {
    var pieces := Split(workStyle, ", ");
    assert forall s :: s in pieces ==> !Contains(s, ", ");
    Filter(pieces, NonEmpty)
  }

  /** toggleWorkStyle: the style is removed from, or appended to, the
      listed styles, which are joined again with ", ". */
  function ToggleWorkStyle(workStyle: string, style: string): (r: string)
    ensures style in WorkStyles(workStyle) ==> r == Join(Filter(WorkStyles(workStyle), Except(style)), ", ")
    ensures style !in WorkStyles(workStyle) ==> r == Join(WorkStyles(workStyle) + [style], ", ")
  {
    Join(ToggleBack(WorkStyles(workStyle), style), ", ")
  }

  /** The work-style toggle lists the style afterwards exactly when it was
      not listed before, for a non-empty style without the separator. */
  lemma ToggleWorkStyleFlips(workStyle: string, style: string)
    requires style != "" && !Contains(style, ", ")
    ensures style in WorkStyles(ToggleWorkStyle(workStyle, style)) <==> style !in WorkStyles(workStyle)
  {
    var current := WorkStyles(workStyle);
    var next := ToggleBack(current, style);
    ToggleFlips(current, style);
    ListedStylesRoundTrip(next);
  }

  /** Joining separator-free, non-empty styles and listing them again gives
      the same styles. */
  lemma ListedStylesRoundTrip(styles: seq<string>)
    requires forall s :: s in styles ==> s != "" && !Contains(s, ", ")
    ensures WorkStyles(Join(styles, ", ")) == styles
  {
    if styles == [] {
      assert Split("", ", ") == [""];
      assert Filter([""], NonEmpty) == [];
    } else {
      assert forall i :: 0 <= i < |styles| ==> styles[i] in styles;
      SplitJoin(styles, ", ");
      FilterKeepsAll(styles, NonEmpty);
    }
  }

  /** Adding a new style and removing it again leaves the normalised
      original: the listed styles joined with ", ". */
  lemma ToggleWorkStyleTwice(workStyle: string, style: string)
    requires style != "" && !Contains(style, ", ") && style !in WorkStyles(workStyle)
    ensures ToggleWorkStyle(ToggleWorkStyle(workStyle, style), style) == Join(WorkStyles(workStyle), ", ")
  {
    var current := WorkStyles(workStyle);
    ListedStylesRoundTrip(current + [style]);
    FilterAppendDropped(current, style, Except(style));
    FilterKeepsAll(current, Except(style));
  }

  /** toggleProvider: a connected provider loses every occurrence, another
      one is appended, and no other field changes. */
  function ToggleProvider(u: User, provider: string): (r: User)
    ensures r.(connectedProviders := u.connectedProviders) == u
    ensures provider in u.connectedProviders ==> r.connectedProviders == Filter(u.connectedProviders, Except(provider))
    ensures provider !in u.connectedProviders ==> r.connectedProviders == u.connectedProviders + [provider]
    ensures provider in r.connectedProviders <==> provider !in u.connectedProviders
  {
    ToggleFlips(u.connectedProviders, provider);
    u.(connectedProviders := ToggleBack(u.connectedProviders, provider))
  }

  /** displayInterests. */
  function DisplayInterests(interests: seq<string>): seq<string>
  {
    Dedup(interests + PredefinedInterests)
  }

  /** The displayed interests list each of the user's interests and each
      predefined one exactly once; the user's own come first, in the order
      of their first occurrence. */
  lemma DisplayInterestsSpec(interests: seq<string>)
    ensures NoDups(DisplayInterests(interests))
    ensures forall s :: s in DisplayInterests(interests) <==> s in interests || s in PredefinedInterests
    ensures Dedup(interests) <= DisplayInterests(interests)
    ensures var all := interests + PredefinedInterests; var d := DisplayInterests(interests);
      forall i, j :: 0 <= i < j < |d| ==> FirstIndex(all, d[i]) < FirstIndex(all, d[j])
  {
    DedupPrefix(interests, PredefinedInterests);
    DedupFirstOccurrenceOrder(interests + PredefinedInterests);
  }

  /** What the CV analysis extracts. */
  datatype CvAnalysis = CvAnalysis(name: string, interests: seq<string>, skills: seq<string>, workStyle: string)

  /** The form update after an analysis: the name is taken only over an
      empty or placeholder name, interests and skills become deduplicated
      unions with the analysis first, and a set work style is kept. */
  function MergeAnalysis(prev: User, analysis: CvAnalysis): (r: User)
    ensures r.name == if (prev.name == "" || prev.name == "Alex Doe") && analysis.name != ""
                      then analysis.name else prev.name
    ensures NoDups(r.interests) && NoDups(r.coreCompetencies)
    ensures forall s :: s in r.interests <==> s in analysis.interests || s in prev.interests
    ensures forall s :: s in r.coreCompetencies <==> s in analysis.skills || s in prev.coreCompetencies
    ensures prev.workStyle != "" ==> r.workStyle == prev.workStyle
    ensures prev.workStyle == "" ==> r.workStyle == analysis.workStyle
    ensures r.(name := prev.name, interests := prev.interests, coreCompetencies := prev.coreCompetencies,
               workStyle := prev.workStyle) == prev
  {
    var newName := if (prev.name == "" || prev.name == "Alex Doe") && analysis.name != "" then analysis.name else prev.name;
    prev.(name := newName,
          interests := Dedup(analysis.interests + prev.interests),
          coreCompetencies := Dedup(analysis.skills + prev.coreCompetencies),
          workStyle := if prev.workStyle != "" then prev.workStyle else analysis.workStyle)
  }

  /** The analysis entries keep their leading place in the merged lists. */
  lemma MergeAnalysisPrefix(prev: User, analysis: CvAnalysis)
    ensures Dedup(analysis.interests) <= MergeAnalysis(prev, analysis).interests
    ensures Dedup(analysis.skills) <= MergeAnalysis(prev, analysis).coreCompetencies
  {
    DedupPrefix(analysis.interests, prev.interests);
    DedupPrefix(analysis.skills, prev.coreCompetencies);
  }

  /** handleFileUpload once the text is read: the text becomes the CV, and
      only a text longer than 50 UTF-16 code units is analysed and merged. */
  function UploadCv(prev: User, text: string, analysis: CvAnalysis): (r: User)
    ensures r.cv == text
    ensures Utf16Length(text) <= 50 ==> r == prev.(cv := text)
    ensures Utf16Length(text) > 50 ==> r == MergeAnalysis(prev.(cv := text), analysis)
  {
    var withCv := prev.(cv := text);
    if Utf16Length(text) > 50 then MergeAnalysis(withCv, analysis) else withCv
  }
}
