/**
 * The study-scheduler page: the form schema, the parse of the comma-separated
 * course list, and the submit handler that drives the loading, error and
 * result state around one call to the generator.
 */
module Scheduler {
  import opened Wrappers
  import opened Seqs
  import opened Text
  import opened Forms
  import opened ScheduleFlow

  /** The number `z.coerce.number()` makes of the hours input. */
  datatype Coerced = Finite(value: real) | PositiveInfinity | NegativeInfinity | NaN

  /** The raw form, after coercion of the hours field. */
  datatype ScheduleFormInput = ScheduleFormInput(courses: string, availableTime: Coerced)

  /** The values `onSubmit` receives once the schema accepted the form. */
  datatype ScheduleFormValues = ScheduleFormValues(courses: string, availableTime: real)

  /** The form's default values. */
  const DefaultValues := ScheduleFormInput("", Finite(10.0))

  const CoursesRequired := "Please list at least one course."
  const HoursTooFew := "Please enter a valid number of hours (at least 1)."
  const HoursTooMany := "Available time cannot exceed 100 hours."
  const HoursNotANumber := "Expected number, received nan"
  const CoursesNotListed := "Please provide a comma-separated list of courses."
  const GenerationFailedMessage :=
    "Failed to generate study schedule. The AI model might be temporarily unavailable or there was an issue with the input. Please try again later."

  /** The hours field's `.min(1, …).max(100, …)` checks: accepted exactly on [1, 100]. */
  function HoursIssues(h: Coerced): (r: seq<Issue>)
    ensures r == [] <==> h.Finite? && 1.0 <= h.value <= 100.0
    ensures forall i :: 0 <= i < |r| ==> r[i].path == "availableTime"
  {
    match h
    case NaN => [Issue("availableTime", HoursNotANumber)]
    case NegativeInfinity => [Issue("availableTime", HoursTooFew)]
    case PositiveInfinity => [Issue("availableTime", HoursTooMany)]
    case Finite(v) =>
      (if v < 1.0 then [Issue("availableTime", HoursTooFew)] else [])
      + (if v > 100.0 then [Issue("availableTime", HoursTooMany)] else [])
  }

  /** `scheduleFormSchema`'s issues: the course text needs one character, the hours lie in [1, 100]. */
  function ScheduleIssues(form: ScheduleFormInput): (r: seq<Issue>)
    ensures r == [] <==> |form.courses| >= 1 && form.availableTime.Finite?
                         && 1.0 <= form.availableTime.value <= 100.0
  {
    MinLength("courses", form.courses, 1, CoursesRequired) + HoursIssues(form.availableTime)
  }

  /** The message the hours field shows: too few below 1, too many above 100, none in between. */
  lemma HoursFieldError(h: Coerced)
    ensures FirstError(HoursIssues(h), "availableTime")
         == match h
            case NaN => Some(HoursNotANumber)
            case NegativeInfinity => Some(HoursTooFew)
            case PositiveInfinity => Some(HoursTooMany)
            case Finite(v) =>
              if v < 1.0 then Some(HoursTooFew)
              else if v > 100.0 then Some(HoursTooMany)
              else None
  {
  }

  /**
   * The message each scheduler field shows: the courses field only when the
   * text is empty, the hours field as `HoursFieldError` gives it.
   */
  lemma ScheduleFieldErrors(form: ScheduleFormInput)
    ensures FirstError(ScheduleIssues(form), "courses")
         == if form.courses == [] then Some(CoursesRequired) else None
    ensures FirstError(ScheduleIssues(form), "availableTime")
         == FirstError(HoursIssues(form.availableTime), "availableTime")
  {
    var c := MinLength("courses", form.courses, 1, CoursesRequired);
    var h := HoursIssues(form.availableTime);
    FirstErrorAppend(c, h, "courses");
    FirstErrorAppend(c, h, "availableTime");
  }

  /** The default values fail on the course text alone. */
  lemma DefaultValuesRejected()
    ensures ScheduleIssues(DefaultValues) == [Issue("courses", CoursesRequired)]
  {
  }

  /**
   * `data.courses.split(',').map(course => course.trim())`: one piece more
   * than there are commas, each trimmed and comma-free.
   */
  function TrimmedPieces(text: string): (r: seq<string>)
    ensures |r| == Count(text, ',') + 1
    ensures forall i :: 0 <= i < |r| ==> IsTrimmed(r[i]) && ',' !in r[i]
  {
    var pieces := Split(text, ',');
    var r := Map(Trim, pieces);
    assert forall i :: 0 <= i < |r| ==> IsTrimmed(r[i]) && ',' !in r[i] by {
      forall i | 0 <= i < |r|
        ensures IsTrimmed(r[i]) && ',' !in r[i]
      {
        assert pieces[i] in pieces;
        assert r[i] == pieces[i][LeadingSpace(pieces[i])..LeadingSpace(pieces[i]) + |r[i]|];
      }
    }
    r
  }

  /**
   * `data.courses.split(',').map(course => course.trim()).filter(course => course.length > 0)`:
   * the non-empty trimmed pieces, in their order. No entry is empty, has
   * surrounding whitespace or holds a comma; every non-empty trimmed piece is
   * kept as often as it occurs; there is at most one entry more than there are
   * commas.
   */
  function ParseCourses(text: string): (r: seq<string>)
    ensures forall e :: e in r ==> e != [] && IsTrimmed(e) && ',' !in e
    ensures forall e :: e != [] ==> Count(r, e) == Count(TrimmedPieces(text), e)
    ensures IsSubsequence(r, TrimmedPieces(text))
    ensures |r| <= Count(text, ',') + 1
  {
    var trimmed := TrimmedPieces(text);
    forall e | e != []
      ensures Count(Filter(NonEmpty, trimmed), e) == Count(trimmed, e)
    {
      FilterCount(NonEmpty, trimmed, e);
    }
    forall e | e in trimmed
      ensures IsTrimmed(e) && ',' !in e
    {
      var i :| 0 <= i < |trimmed| && trimmed[i] == e;
    }
    FilterIsSubsequence(NonEmpty, TrimmedPieces(text));
    Filter(NonEmpty, TrimmedPieces(text))
  }

  /** A comma-free piece made of commas and whitespace trims to nothing. */
  lemma BlankPieceTrimsEmpty(piece: string)
    requires ',' !in piece
    requires forall k :: 0 <= k < |piece| ==> piece[k] == ',' || IsWhitespace(piece[k])
    ensures Trim(piece) == []
  {
    assert forall k :: 0 <= k < |piece| ==> IsWhitespace(piece[k]) by {
      forall k | 0 <= k < |piece|
        ensures IsWhitespace(piece[k])
      {
        assert piece[k] in piece;
      }
    }
    TrimEmptyIff(piece);
  }

  /**
   * Text made only of commas and whitespace passes the schema's length check
   * when it is not empty, yet parses to no course at all.
   */
  lemma {:induction false} BlankCourseTextParsesEmpty(text: string)
    requires forall k :: 0 <= k < |text| ==> text[k] == ',' || IsWhitespace(text[k])
    ensures ParseCourses(text) == []
    ensures |text| >= 1 ==> MinLength("courses", text, 1, CoursesRequired) == []
  {
    var pieces := Split(text, ',');
    var trimmed := TrimmedPieces(text);
    SplitKeeps(text, ',', c => c == ',' || IsWhitespace(c));
    forall e | e in trimmed
      ensures !NonEmpty(e)
    {
      var i :| 0 <= i < |pieces| && trimmed[i] == e;
      var piece := pieces[i];
      assert piece in pieces;
      BlankPieceTrimsEmpty(piece);
    }
    FilterDropsAll(NonEmpty, trimmed);
  }

  /** A piece after `", "`: the name with the space that follows the comma. */
  function Spaced(name: string): string {
    [' '] + name
  }

  /** A trimmed name after a single leading space trims back to the name. */
  lemma TrimSpaced(name: string)
    requires IsTrimmed(name)
    ensures Trim(Spaced(name)) == name
  {
    TrimAfterSpace(Spaced(name));
    assert Spaced(name)[1..] == name;
    TrimOfTrimmed(name);
  }

  /** Splitting names joined with `", "` on the comma leaves the space before every name but the first. */
  lemma {:induction false} SplitCommaList(names: seq<string>)
    requires |names| >= 1
    requires forall i :: 0 <= i < |names| ==> ',' !in names[i]
    ensures Split(Join(names, ", "), ',') == [names[0]] + Map(Spaced, names[1..])
    decreases |names|
  {
    if |names| == 1 {
      SplitPrefix(names[0], [], ',');
      assert Split([], ',') == [[]];
      assert names[0] + [] == names[0];
      assert Map(Spaced, names[1..]) == [];
    } else {
      var rest := Join(names[1..], ", ");
      SplitCommaList(names[1..]);
      assert names[1..][0] == names[1] && names[1..][1..] == names[2..];
      SplitPrefix([' '], rest, ',');
      assert [' '] + rest == ([',', ' '] + rest)[1..];
      assert Split([',', ' '] + rest, ',') == [[]] + Split([' '] + rest, ',');
      SplitPrefix(names[0], [',', ' '] + rest, ',');
      assert Join(names, ", ") == names[0] + ([',', ' '] + rest);
      assert Map(Spaced, names[1..]) == [Spaced(names[1])] + Map(Spaced, names[2..]);
      assert names[0] + [] == names[0];
    }
  }

  /** Trimming the first name and the spaced names after it gives the names. */
  lemma TrimSpacedNames(names: seq<string>)
    requires |names| >= 1
    requires forall i :: 0 <= i < |names| ==> IsTrimmed(names[i])
    ensures Map(Trim, [names[0]] + Map(Spaced, names[1..])) == names
  {
    var pieces := [names[0]] + Map(Spaced, names[1..]);
    forall i | 0 <= i < |names|
      ensures Trim(pieces[i]) == names[i]
    {
      if i == 0 {
        TrimOfTrimmed(names[0]);
      } else {
        TrimSpaced(names[i]);
      }
    }
  }

  /** Trimming the pieces of a `", "`-separated list of trimmed, comma-free names gives the names. */
  lemma TrimmedCommaList(names: seq<string>)
    requires |names| >= 1
    requires forall i :: 0 <= i < |names| ==> IsTrimmed(names[i]) && ',' !in names[i]
    ensures TrimmedPieces(Join(names, ", ")) == names
  {
    SplitCommaList(names);
    TrimSpacedNames(names);
  }

  /**
   * Course names that are non-empty, trimmed and comma-free, written as a
   * `", "`-separated list, parse back to the same names in the same order.
   */
  lemma ParseCommaList(names: seq<string>)
    requires |names| >= 1
    requires forall i :: 0 <= i < |names| ==> names[i] != [] && IsTrimmed(names[i]) && ',' !in names[i]
    ensures ParseCourses(Join(names, ", ")) == names
  {
    TrimmedCommaList(names);
    FilterKeepsAll(NonEmpty, names);
  }

  /** An example course text and the three course names it lists. */
  const ExampleCourses := "Intro to Python, Web Basics, Data Structures"

  lemma ExampleCoursesParse()
    ensures ParseCourses(ExampleCourses) == ["Intro to Python", "Web Basics", "Data Structures"]
  {
    var names := ["Intro to Python", "Web Basics", "Data Structures"];
    assert Join(names[2..], ", ") == names[2];
    assert Join(names[1..], ", ") == names[1] + ", " + names[2];
    assert Join(names, ", ") == ExampleCourses;
    ParseCommaList(names);
  }

  /** The form values the schema hands to `onSubmit`, or the issues it reports. */
  function Validate(form: ScheduleFormInput): (r: Result<ScheduleFormValues, seq<Issue>>)
    ensures r.Ok? <==> |form.courses| >= 1 && form.availableTime.Finite?
                       && 1.0 <= form.availableTime.value <= 100.0
    ensures r.Ok? ==> r.value == ScheduleFormValues(form.courses, form.availableTime.value)
    ensures r.Err? ==> r.error != [] && r.error == ScheduleIssues(form)
  {
    var issues := ScheduleIssues(form);
    if issues == [] then Ok(ScheduleFormValues(form.courses, form.availableTime.value))
    else Err(issues)
  }

  /** What the page shows: the schedule card, the loading state of the button, the error banner. */
  datatype PageView = PageView(generatedSchedule: Option<string>, isLoading: bool, error: Option<string>)

  /** One call to the generator, with the view the page shows while the call is pending. */
  datatype GeneratorCall = GeneratorCall(input: StudyScheduleInput, viewWhilePending: PageView)

  /** The state of the scheduler page component. */
  class SchedulerPage {
    var generatedSchedule: Option<string>
    var isLoading: bool
    var error: Option<string>
    /** The form's error messages on the `courses` and `availableTime` fields. */
    var coursesError: Option<string>
    var availableTimeError: Option<string>
    /** Every call made to the generator, oldest first. */
    ghost var calls: seq<GeneratorCall>

    function View(): PageView
      reads this
    {
      PageView(generatedSchedule, isLoading, error)
    }

    constructor ()
      ensures View() == PageView(None, false, None)
      ensures coursesError == None && availableTimeError == None
      ensures calls == []
    {
      generatedSchedule := None;
      isLoading := false;
      error := None;
      coursesError := None;
      availableTimeError := None;
      calls := [];
    }

    /**
     * The state `onSubmit` leaves behind, given the calls and the courses-field
     * error before it ran: loading is over; an empty course list sets the
     * courses error and calls nothing; otherwise the generator is called once,
     * while the page shows loading with no schedule and no error, and its
     * outcome becomes the schedule or the fixed error message.
     */
    ghost predicate Submitted(data: ScheduleFormValues, generate: StudyScheduleInput -> GenerationOutcome,
                              callsBefore: seq<GeneratorCall>, coursesErrorBefore: Option<string>)
      reads this
    {
      var courses := ParseCourses(data.courses);
      var input := StudyScheduleInput(courses, data.availableTime);
      && !isLoading
      && (courses == [] ==>
            && coursesError == Some(CoursesNotListed)
            && generatedSchedule == None && error == None
            && calls == callsBefore)
      && (courses != [] ==>
            && coursesError == coursesErrorBefore
            && calls == callsBefore + [GeneratorCall(input, PageView(None, true, None))]
            && match generate(input)
               case Generated(out) => generatedSchedule == Some(out.schedule) && error == None
               case GenerationFailed => generatedSchedule == None && error == Some(GenerationFailedMessage))
    }

    /** `onSubmit`, run on values the schema accepted. */
    method OnSubmit(data: ScheduleFormValues, generate: StudyScheduleInput -> GenerationOutcome)
      modifies this
      ensures Submitted(data, generate, old(calls), old(coursesError))
      ensures availableTimeError == old(availableTimeError)
    {
      isLoading := true;
      error := None;
      generatedSchedule := None;

      var courseList := ParseCourses(data.courses);
      if |courseList| == 0 {
        coursesError := Some(CoursesNotListed);
        isLoading := false;
        return;
      }

      var input := StudyScheduleInput(courseList, data.availableTime);
      calls := calls + [GeneratorCall(input, View())];
      var result := generate(input);
      match result {
        case Generated(out) => generatedSchedule := Some(out.schedule);
        case GenerationFailed => error := Some(GenerationFailedMessage);
      }
      isLoading := false;
    }

    /**
     * `form.handleSubmit(onSubmit)`: the schema's issues replace the field
     * errors; `onSubmit` runs only when there are none.
     */
    method HandleSubmit(form: ScheduleFormInput, generate: StudyScheduleInput -> GenerationOutcome)
      modifies this
      ensures var issues := ScheduleIssues(form);
              issues != [] ==>
                && coursesError == FirstError(issues, "courses")
                && availableTimeError == FirstError(issues, "availableTime")
                && View() == old(View()) && calls == old(calls)
      ensures ScheduleIssues(form) == [] ==>
                && availableTimeError == None
                && Submitted(ScheduleFormValues(form.courses, form.availableTime.value), generate, old(calls), None)
    {
      var validated := Validate(form);
      match validated {
        case Err(issues) =>
          coursesError := FirstError(issues, "courses");
          availableTimeError := FirstError(issues, "availableTime");
        case Ok(data) =>
          coursesError := None;
          availableTimeError := None;
          OnSubmit(data, generate);
      }
    }
  }
}
