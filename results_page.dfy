/** The results page: the letter grade shown under the overall score, the short labels and
    the "N/A" rule of the subscore grid, the overall score itself, and the effect that loads
    the stored record (retrying while storage is still empty) and later clears it. */
module ResultsPage {
  import opened Wrappers
  import opened JsString
  import opened Feedback

  // ---------------------------------------------------------------------------------------
  // Letter grade

  datatype Grade = APlus | A | AMinus | BPlus | B | BMinus | CPlus | C | CMinus | DPlus | D | DMinus | F

  /** The grades from best to worst. */
  const Grades: seq<Grade> := [APlus, A, AMinus, BPlus, B, BMinus, CPlus, C, CMinus, DPlus, D, DMinus, F]

  /** Lowest score of each grade but F, in the same order. */
  const Cutoffs: seq<int> := [97, 93, 90, 87, 83, 80, 77, 73, 70, 67, 63, 60]

  /** The text the page shows for a grade. */
  function Label(g: Grade): string {
    match g
    case APlus => "A+" case A => "A" case AMinus => "A-"
    case BPlus => "B+" case B => "B" case BMinus => "B-"
    case CPlus => "C+" case C => "C" case CMinus => "C-"
    case DPlus => "D+" case D => "D" case DMinus => "D-"
    case F => "F"
  }

  /** Position of a grade in Grades: 0 for A+, 12 for F. */
  function Rank(g: Grade): (k: nat)
    ensures k < |Grades| && Grades[k] == g
  {
    match g
    case APlus => 0 case A => 1 case AMinus => 2
    case BPlus => 3 case B => 4 case BMinus => 5
    case CPlus => 6 case C => 7 case CMinus => 8
    case DPlus => 9 case D => 10 case DMinus => 11
    case F => 12
  }

  /** `getLetterGrade`: the first cutoff, from the top, that the score reaches. */
  function LetterGrade(score: int): Grade {
    if score >= 97 then APlus
    else if score >= 93 then A
    else if score >= 90 then AMinus
    else if score >= 87 then BPlus
    else if score >= 83 then B
    else if score >= 80 then BMinus
    else if score >= 77 then CPlus
    else if score >= 73 then C
    else if score >= 70 then CMinus
    else if score >= 67 then DPlus
    else if score >= 63 then D
    else if score >= 60 then DMinus
    else F
  }

  /** Grade g covers the scores from its own cutoff (inclusive; none for F) up to the
      cutoff of the next better grade (exclusive; none for A+). */
  predicate InBand(score: int, g: Grade) {
    var k := Rank(g);
    (k == 0 || score < Cutoffs[k - 1]) && (k == |Cutoffs| || Cutoffs[k] <= score)
  }

  /** The cascade gives exactly the grade whose band holds the score. */
  lemma LetterGradeBands(score: int, g: Grade)
    ensures LetterGrade(score) == g <==> InBand(score, g)
  {
  }

  /** A higher score never gets a worse grade. */
  lemma LetterGradeMonotone(lo: int, hi: int)
    requires lo <= hi
    ensures Rank(LetterGrade(hi)) <= Rank(LetterGrade(lo))
  {
  }

  /** Every cutoff belongs to the grade it starts, one less to the next grade down: the
      bounds are inclusive. */
  lemma CutoffsInclusive()
    ensures LetterGrade(97) == APlus && LetterGrade(96) == A
    ensures LetterGrade(93) == A && LetterGrade(92) == AMinus
    ensures LetterGrade(90) == AMinus && LetterGrade(89) == BPlus
    ensures LetterGrade(87) == BPlus && LetterGrade(86) == B
    ensures LetterGrade(83) == B && LetterGrade(82) == BMinus
    ensures LetterGrade(80) == BMinus && LetterGrade(79) == CPlus
    ensures LetterGrade(77) == CPlus && LetterGrade(76) == C
    ensures LetterGrade(73) == C && LetterGrade(72) == CMinus
    ensures LetterGrade(70) == CMinus && LetterGrade(69) == DPlus
    ensures LetterGrade(67) == DPlus && LetterGrade(66) == D
    ensures LetterGrade(63) == D && LetterGrade(62) == DMinus
    ensures LetterGrade(60) == DMinus && LetterGrade(59) == F
  {
  }

  /** Distinct grades are shown with distinct labels. */
  lemma LabelInjective(g: Grade, h: Grade)
    requires Label(g) == Label(h)
    ensures g == h
  {
  }

  // ---------------------------------------------------------------------------------------
  // Subscore grid

  /** The lookup table of `simplifyCategory`. */
  const Simplifications: map<string, string> := map[
    "gpaPresentation" := "GPA",
    "courseLoad" := "Courses",
    "awardsHonors" := "Awards",
    "academicProjects" := "Projects",
    "testScores" := "Tests",
    "classRank" := "Rank",
    "academicGrowth" := "Growth",
    "descriptionQuality" := "Description",
    "impactMetrics" := "Impact",
    "responsibilityLevel" := "Responsibility",
    "initiativeShown" := "Initiative",
    "duration" := "Duration",
    "progression" := "Progression",
    "relevance" := "Relevance"]

  /** `simplifyCategory`: the table's label, or the key itself when the lookup is falsy. */
  function SimplifyCategory(key: string): string {
    if key in Simplifications && Simplifications[key] != "" then Simplifications[key] else key
  }

  /** A listed key gets its label (no label is empty, so the fallback never fires for it);
      any other key is shown as it is. */
  lemma SimplifyCategoryLookup(key: string)
    ensures key in Simplifications ==> SimplifyCategory(key) == Simplifications[key] != ""
    ensures key !in Simplifications ==> SimplifyCategory(key) == key
  {
  }

  /** The table lists exactly the fourteen subscore fields of the record. */
  lemma SimplificationsCoverSubscores()
    ensures Simplifications.Keys == set k | k in AcademicKeys + ExperienceKeys
  {
    assert forall k :: k in AcademicKeys + ExperienceKeys <==> k in Simplifications.Keys;
  }

  /** A subscore cell: "N/A" for 0 and 100, otherwise the value followed by a percent sign. */
  function SubscoreDisplay(value: int): (r: string)
    ensures r != "N/A" ==> |r| >= 2 && r[|r| - 1] == '%'
  {
    if value == 100 || value == 0 then "N/A" else IntToDecimal(value) + "%"
  }

  /** "N/A" is shown exactly for 0 and 100. */
  lemma SubscoreNotApplicable(value: int)
    ensures SubscoreDisplay(value) == "N/A" <==> value == 0 || value == 100
  {
    if value != 0 && value != 100 {
      var r := IntToDecimal(value);
      IntToDecimalRoundTrip(value);
      assert SubscoreDisplay(value)[|SubscoreDisplay(value)| - 1] == '%';
    }
  }

  /** Every other value is shown as its own decimal rendering: reading the cell back before
      the percent sign gives the value. */
  lemma SubscoreReadsBack(value: int)
    requires value != 0 && value != 100
    ensures var r := SubscoreDisplay(value);
      var digits := r[..|r| - 1];
      digits != [] && (forall k :: 0 < k < |digits| ==> IsDigit(digits[k])) &&
      (digits[0] == '-' || IsDigit(digits[0])) && ReadDecimal(digits) == value
  {
    var r := SubscoreDisplay(value);
    assert r[..|r| - 1] == IntToDecimal(value);
    IntToDecimalRoundTrip(value);
  }

  /** The rows of one subscore grid: label and cell for each entry, in entry order. */
  function GridRows(entries: seq<(string, int)>): (rows: seq<(string, string)>)
    ensures |rows| == |entries|
    ensures forall k :: 0 <= k < |entries| ==>
      rows[k] == (SimplifyCategory(entries[k].0), SubscoreDisplay(entries[k].1))
  {
    if entries == [] then []
    else [(SimplifyCategory(entries[0].0), SubscoreDisplay(entries[0].1))] + GridRows(entries[1..])
  }

  /** The academic grid shows one row per academic subscore, labelled from the table. */
  lemma AcademicGridLabels(s: AcademicSubscores, k: nat)
    requires k < |AcademicKeys|
    ensures |GridRows(AcademicEntries(s))| == |AcademicKeys|
    ensures GridRows(AcademicEntries(s))[k].0 == Simplifications[AcademicKeys[k]]
  {
    var es := AcademicEntries(s);
    assert es[k].0 == AcademicKeys[k];
    SimplifyCategoryLookup(AcademicKeys[k]);
  }

  /** The experience grid shows one row per experience subscore, labelled from the table. */
  lemma ExperienceGridLabels(s: ExperienceSubscores, k: nat)
    requires k < |ExperienceKeys|
    ensures |GridRows(ExperienceEntries(s))| == |ExperienceKeys|
    ensures GridRows(ExperienceEntries(s))[k].0 == Simplifications[ExperienceKeys[k]]
  {
    var es := ExperienceEntries(s);
    assert es[k].0 == ExperienceKeys[k];
    SimplifyCategoryLookup(ExperienceKeys[k]);
  }

  /** Each academic grid cell shows the display of its own row's subscore. */
  lemma AcademicGridCells(s: AcademicSubscores)
    ensures var rows := GridRows(AcademicEntries(s));
      |rows| == 7 &&
      rows[0].1 == SubscoreDisplay(s.gpaPresentation) && rows[1].1 == SubscoreDisplay(s.courseLoad) &&
      rows[2].1 == SubscoreDisplay(s.awardsHonors) &&
      rows[3].1 == SubscoreDisplay(s.academicProjects) &&
      rows[4].1 == SubscoreDisplay(s.testScores) && rows[5].1 == SubscoreDisplay(s.classRank) &&
      rows[6].1 == SubscoreDisplay(s.academicGrowth)
  {
  }

  /** Each experience grid cell shows the display of its own row's subscore. */
  lemma ExperienceGridCells(s: ExperienceSubscores)
    ensures var rows := GridRows(ExperienceEntries(s));
      |rows| == 7 &&
      rows[0].1 == SubscoreDisplay(s.descriptionQuality) &&
      rows[1].1 == SubscoreDisplay(s.impactMetrics) && rows[2].1 == SubscoreDisplay(s.duration) &&
      rows[3].1 == SubscoreDisplay(s.progression) && rows[4].1 == SubscoreDisplay(s.relevance) &&
      rows[5].1 == SubscoreDisplay(s.responsibilityLevel) &&
      rows[6].1 == SubscoreDisplay(s.initiativeShown)
  {
  }

  // ---------------------------------------------------------------------------------------
  // Overall score

  /** `Math.round((academic + experience) / 2)`: JavaScript rounds to the nearest integer,
      halves upwards, that is floor(x + 0.5). */
  function OverallScore(academic: int, experience: int): int {
    ((academic + experience) as real / 2.0 + 0.5).Floor
  }

  /** On whole scores the rounding is the integer average rounded up. */
  lemma OverallScoreIsRoundedUpMean(a: int, b: int)
    ensures OverallScore(a, b) == (a + b + 1) / 2
  {
    var q := (a + b + 1) / 2;
    assert (a + b + 1) == 2 * q || (a + b + 1) == 2 * q + 1;
    assert (a + b) as real / 2.0 + 0.5 == (a + b + 1) as real / 2.0;
  }

  /** The overall score lies between the two section scores. */
  lemma OverallScoreBetween(a: int, b: int)
    ensures (if a <= b then a else b) <= OverallScore(a, b) <= (if a <= b then b else a)
  {
    OverallScoreIsRoundedUpMean(a, b);
  }

  /** Section scores on the 0..100 scale give an overall score on that scale. */
  lemma OverallScoreInRange(a: int, b: int)
    requires 0 <= a <= 100 && 0 <= b <= 100
    ensures 0 <= OverallScore(a, b) <= 100
  {
    OverallScoreBetween(a, b);
  }

  /** The score the circle and the letter grade of a record show. */
  function RecordScore(r: Record): int {
    OverallScore(r.scores.academic.overall, r.scores.experience.overall)
  }

  /** The letter grade under the circle lies between the grades the two section scores would
      get on their own. */
  lemma RecordGradeBetween(r: Record)
    ensures var a, e := r.scores.academic.overall, r.scores.experience.overall;
      var best, worst := (if a <= e then e else a), (if a <= e then a else e);
      Rank(LetterGrade(best)) <= Rank(LetterGrade(RecordScore(r))) <= Rank(LetterGrade(worst))
  {
    var a, e := r.scores.academic.overall, r.scores.experience.overall;
    OverallScoreBetween(a, e);
    var best, worst := (if a <= e then e else a), (if a <= e then a else e);
    LetterGradeMonotone(RecordScore(r), best);
    LetterGradeMonotone(worst, RecordScore(r));
  }

  // ---------------------------------------------------------------------------------------
  // Loading and clearing the stored record

  const MaxRetries := 3
  const NoFeedback := "No feedback found. Please submit your resume first."

  /** What loading ends in: the parsed record, or the error message shown before the page
      sends the browser home. */
  datatype LoadOutcome = Loaded(record: Record) | LoadFailed(message: string)

  /** The specification of `tryLoadFeedback`: `storage(k)` is what the k-th read of the
      storage key returns (`None` for `null`). Every read before the last was empty, and
      there are at most MaxRetries of them; a non-empty last read is parsed, and an empty
      one ends in the NoFeedback error. */
  predicate LoadsWithin(storage: nat -> Option<string>, parse: string -> Parsed<Record>,
                        attempts: nat, outcome: LoadOutcome) {
    1 <= attempts <= MaxRetries + 1 &&
    (forall k :: 0 <= k < attempts - 1 ==> !Truthy(storage(k))) &&
    (Truthy(storage(attempts - 1)) ==>
      match parse(storage(attempts - 1).value)
      case Parsed(record) => outcome == Loaded(record)
      case SyntaxError(message) => outcome == LoadFailed(message)) &&
    (!Truthy(storage(attempts - 1)) ==> attempts == MaxRetries + 1 && outcome == LoadFailed(NoFeedback))
  }

  /** `tryLoadFeedback` with its retries: each empty read is retried after a delay while
      the retry counter is below MaxRetries; the first non-empty read is parsed. */
  method LoadFeedback(storage: nat -> Option<string>, parse: string -> Parsed<Record>)
    returns (attempts: nat, outcome: LoadOutcome)
    ensures LoadsWithin(storage, parse, attempts, outcome)
  {
    var retryCount := 0;
    var stored := storage(0);
    while !Truthy(stored) && retryCount < MaxRetries
      invariant 0 <= retryCount <= MaxRetries
      invariant stored == storage(retryCount)
      invariant forall k :: 0 <= k < retryCount ==> !Truthy(storage(k))
      decreases MaxRetries - retryCount
    {
      retryCount := retryCount + 1;
      stored := storage(retryCount);
    }
    attempts := retryCount + 1;
    if !Truthy(stored) {
      outcome := LoadFailed(NoFeedback);
    } else {
      match parse(stored.value)
      case Parsed(record) =>
        outcome := Loaded(record);
      case SyntaxError(message) =>
        outcome := LoadFailed(message);
    }
  }

  /** The specification leaves no choice: the number of reads and the outcome are fixed by
      what storage returns. */
  lemma LoadsWithinUnique(storage: nat -> Option<string>, parse: string -> Parsed<Record>,
                          a1: nat, o1: LoadOutcome, a2: nat, o2: LoadOutcome)
    requires LoadsWithin(storage, parse, a1, o1) && LoadsWithin(storage, parse, a2, o2)
    ensures a1 == a2 && o1 == o2
  {

  }

  /** When storage stays empty the page gives up after 1 + MaxRetries reads with the
      NoFeedback error. */
  lemma EmptyStorageFails(storage: nat -> Option<string>, parse: string -> Parsed<Record>,
                          attempts: nat, outcome: LoadOutcome)
    requires forall k :: 0 <= k <= MaxRetries ==> !Truthy(storage(k))
    requires LoadsWithin(storage, parse, attempts, outcome)
    ensures attempts == MaxRetries + 1 && outcome == LoadFailed(NoFeedback)
  {
    assert !Truthy(storage(attempts - 1));
  }

  /** A record already in storage is loaded on the first read. */
  lemma StoredRecordLoadsAtOnce(storage: nat -> Option<string>, parse: string -> Parsed<Record>,
                                attempts: nat, outcome: LoadOutcome)
    requires Truthy(storage(0)) && parse(storage(0).value).Parsed?
    requires LoadsWithin(storage, parse, attempts, outcome)
    ensures attempts == 1 && outcome == Loaded(parse(storage(0).value).value)
  {

  }

  /** The page's state: the `feedback` and `error` state variables, the stored item under
      `resumeRoastFeedback`, and whether the delayed redirect home has been scheduled. */
  class ResultsView {
    var feedback: Option<Record>
    var error: Option<string>
    var stored: Option<string>
    var redirectHome: bool

    constructor (item: Option<string>)
      ensures feedback == None && error == None && stored == item && !redirectHome
    {
      feedback, error, stored, redirectHome := None, None, item, false;
    }

    /** The mount effect: load with retries, then set `feedback`, or set `error` and
        schedule the redirect home. Storage itself is only read. */
    method Mount(storage: nat -> Option<string>, parse: string -> Parsed<Record>)
      returns (attempts: nat)
      modifies this`feedback, this`error, this`redirectHome
      ensures exists outcome :: (LoadsWithin(storage, parse, attempts, outcome) &&
        match outcome
        case Loaded(record) =>
          feedback == Some(record) && error == old(error) && redirectHome == old(redirectHome)
        case LoadFailed(message) =>
          feedback == old(feedback) && error == Some(message) && redirectHome)
    {
      var outcome;
      attempts, outcome := LoadFeedback(storage, parse);
      match outcome
      case Loaded(record) =>
        feedback := Some(record);
      case LoadFailed(message) =>
        error := Some(message);
        redirectHome := true;
    }

    /** The effect run when `feedback` changes: the stored item is removed once, and only
        once, a record has been loaded. */
    method ClearAfterLoad()
      modifies this`stored
      ensures feedback.Some? ==> stored == None
      ensures feedback.None? ==> stored == old(stored)
    {
      if feedback.Some? {
        stored := None;
      }
    }
  }
}
