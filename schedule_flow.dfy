/**
 * The records exchanged with the study-schedule generator. The generator itself
 * (a prompt sent to a generative model) is not modelled: callers receive it as
 * a function from input to outcome.
 */
module ScheduleFlow {

  /** The courses to plan for and the weekly hours available. */
  datatype StudyScheduleInput = StudyScheduleInput(courses: seq<string>, availableTime: real)

  /** The generated schedule, as free text. */
  datatype StudyScheduleOutput = StudyScheduleOutput(schedule: string)

  /** A call to the generator either resolves with an output or rejects. */
  datatype GenerationOutcome = Generated(output: StudyScheduleOutput) | GenerationFailed
}
