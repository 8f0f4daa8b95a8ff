/** The shape of the evaluation record the language model is asked to produce
    (the `ResumeRoastResponse` interface, declared identically in the shared store file,
    the roast route and the results page). Scores are whole numbers in this model. */
module Feedback {

  datatype GradeLevel = Freshman | Sophomore | Junior | Senior

  datatype StudentInfo = StudentInfo(
    firstName: string,
    lastName: string,
    schoolName: string,
    graduationYear: int,
    gradeLevel: GradeLevel)

  datatype AcademicSubscores = AcademicSubscores(
    gpaPresentation: int,
    courseLoad: int,
    awardsHonors: int,
    academicProjects: int,
    testScores: int,
    classRank: int,
    academicGrowth: int)

  datatype ExperienceSubscores = ExperienceSubscores(
    descriptionQuality: int,
    impactMetrics: int,
    duration: int,
    progression: int,
    relevance: int,
    responsibilityLevel: int,
    initiativeShown: int)

  datatype Academic = Academic(overall: int, subscores: AcademicSubscores)

  datatype Experience = Experience(overall: int, subscores: ExperienceSubscores)

  datatype Scores = Scores(academic: Academic, experience: Experience)

  datatype Focus = Focus(hasSpike: bool, score: int, areas: seq<string>)

  datatype Category = Suggestion | Fix | Problem | Issue | Advice

  datatype Note = Note(category: Category, title: string, description: string)

  datatype Record = Record(
    studentInfo: StudentInfo,
    roast: string,
    scores: Scores,
    focus: Focus,
    notes: seq<Note>)

  /** Outcome of `JSON.parse(text) as ResumeRoastResponse`: either the value, taken on trust
      as a record (the cast checks nothing), or the `SyntaxError` with its message. */
  datatype Parsed<T> = Parsed(value: T) | SyntaxError(message: string)

  /** Field names of the academic subscores, in declaration order. */
  const AcademicKeys: seq<string> := ["gpaPresentation", "courseLoad", "awardsHonors",
    "academicProjects", "testScores", "classRank", "academicGrowth"]

  /** Field names of the experience subscores, in declaration order. */
  const ExperienceKeys: seq<string> := ["descriptionQuality", "impactMetrics", "duration",
    "progression", "relevance", "responsibilityLevel", "initiativeShown"]

  /** `Object.entries(scores.academic.subscores)`: each field name paired with its value,
      in declaration order. */
  function AcademicEntries(s: AcademicSubscores): (es: seq<(string, int)>)
    ensures |es| == |AcademicKeys|
    ensures forall k :: 0 <= k < |es| ==> es[k].0 == AcademicKeys[k]
    ensures es[0].1 == s.gpaPresentation && es[1].1 == s.courseLoad &&
      es[2].1 == s.awardsHonors && es[3].1 == s.academicProjects &&
      es[4].1 == s.testScores && es[5].1 == s.classRank && es[6].1 == s.academicGrowth
  {
    [("gpaPresentation", s.gpaPresentation), ("courseLoad", s.courseLoad),
     ("awardsHonors", s.awardsHonors), ("academicProjects", s.academicProjects),
     ("testScores", s.testScores), ("classRank", s.classRank),
     ("academicGrowth", s.academicGrowth)]
  }

  /** `Object.entries(scores.experience.subscores)`: each field name paired with its value,
      in declaration order. */
  function ExperienceEntries(s: ExperienceSubscores): (es: seq<(string, int)>)
    ensures |es| == |ExperienceKeys|
    ensures forall k :: 0 <= k < |es| ==> es[k].0 == ExperienceKeys[k]
    ensures es[0].1 == s.descriptionQuality && es[1].1 == s.impactMetrics &&
      es[2].1 == s.duration && es[3].1 == s.progression && es[4].1 == s.relevance &&
      es[5].1 == s.responsibilityLevel && es[6].1 == s.initiativeShown
  {
    [("descriptionQuality", s.descriptionQuality), ("impactMetrics", s.impactMetrics),
     ("duration", s.duration), ("progression", s.progression),
     ("relevance", s.relevance), ("responsibilityLevel", s.responsibilityLevel),
     ("initiativeShown", s.initiativeShown)]
  }
}
