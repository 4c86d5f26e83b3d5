/** The grading-rubric record types and the standard OSCE template
    (lib/types/rubric.ts). */
module RubricTypes {
  import opened Wrappers

  /** One graded category. `maxPoints` is `None` where the stored JSON holds
      no usable number (a missing value or `NaN`), which the editor counts as
      0. */
  datatype RubricCategory = RubricCategory(
    name: string,
    description: string,
    maxPoints: Option<int>,
    criteria: string)

  /** What the editor sends to the server. */
  datatype RubricData = RubricData(
    categories: seq<RubricCategory>,
    totalPoints: int,
    passingThreshold: Option<int>,
    autoGradeEnabled: bool)

  const StandardOsceRubric: seq<RubricCategory> := [
    RubricCategory("History Taking", "Gathering relevant patient information", Some(10),
      "Asked appropriate questions, obtained comprehensive history, followed logical sequence"),
    RubricCategory("Communication Skills", "Interpersonal and communication abilities", Some(10),
      "Clear communication, active listening, empathy, appropriate language level"),
    RubricCategory("Clinical Reasoning", "Diagnostic thinking and problem-solving", Some(10),
      "Logical differential diagnosis, appropriate follow-up questions, clinical judgment"),
    RubricCategory("Professionalism", "Professional behavior and ethics", Some(10),
      "Respectful manner, appropriate boundaries, ethical considerations"),
    RubricCategory("Patient Education", "Explaining and educating the patient", Some(10),
      "Clear explanations, checked understanding, provided appropriate guidance")
  ]

  /** The template has five categories worth 10 points each, every one with a
      name and a description. */
  lemma StandardOsceRubricShape()
    ensures |StandardOsceRubric| == 5
    ensures forall i | 0 <= i < 5 :: StandardOsceRubric[i].maxPoints == Some(10)
    ensures forall i | 0 <= i < 5 :: StandardOsceRubric[i].name != "" && StandardOsceRubric[i].description != ""
  {
  }

  /** No two template categories share a name. */
  lemma StandardOsceNamesDistinct()
    ensures forall i, j | 0 <= i < j < |StandardOsceRubric| :: StandardOsceRubric[i].name != StandardOsceRubric[j].name
  {
  }
}
