/** The records every intelligence provider returns to the application
    (intelligence/provider.rs and the Co-Pilot result types). */
module IntelProvider {
  import opened Wrappers

  /** Whether a provider can serve requests, and if not, why. */
  datatype Availability = Availability(available: bool, reason: Option<string>)

  datatype Transcript = Transcript(language: string, transcript: string)

  datatype Question = Question(question: string, reason: string)

  datatype Concept = Concept(term: string, context: string)

  /** One Co-Pilot analysis of an audio segment. */
  datatype CycleResult = CycleResult(
    newContent: string,
    updatedSummary: string,
    keyPoints: seq<string>,
    decisions: seq<string>,
    actionItems: seq<string>,
    openQuestions: seq<string>,
    suggestedQuestions: seq<Question>,
    keyConcepts: seq<Concept>)
}
