# A verified model of the CodeLeap course pages

CodeLeap is a course-learning web application: a course catalogue, mock login
and registration forms, a profile dashboard, and an AI study scheduler that
turns a list of course names and a weekly-hours budget into a study plan. This
project models the logic embedded in those pages, in Dafny, and proves what it
promises:

- **Study scheduler** (`scheduler.dfy`, `schedule_flow.dfy`). This covers the
  form schema (course text of at least one character, hours in [1, 100]) and
  the course-list parse (split on commas, trim, drop empty pieces). It also
  covers the submit handler, modelled as the class `SchedulerPage`, whose
  fields `generatedSchedule`, `isLoading` and `error` are updated step by
  step around one call to the schedule generator. The generator is a
  parameter (`generate`) that either yields a schedule or fails. A ghost log
  records each call, the input it received and what the page showed while
  the call was pending.
- **Course catalogue** (`catalog.dfy`). The filter effect is the method
  `FilterCourses`, which reassigns its working list through up to three
  filter stages: search, category and skill level. It is proved equal to a
  single filter by the conjunction of the active tests. The selector option
  lists are `'all'` followed by each distinct value in order of first
  occurrence.
- **Login and registration forms** (`forms.dfy`, `login.dfy`,
  `register.dfy`). These cover the zod schemas as lists of issues in the
  order zod reports them, the message each field shows (that of its first
  issue), the password-match refinement reported on `confirmPassword`, the
  default values, and the submit handlers, which only show a toast.
- **Profile** (`profile.dfy`). These are the avatar initials
  `name.split(" ").map(n => n[0]).join("").toUpperCase()` and the dashboard,
  which shows course cards when the user has enrolled courses and the empty
  state otherwise.
- **Course records** (`course_types.dfy`): `Course`, `Lesson`, the category
  and skill-level unions, and the `COURSE_CATEGORIES` and `SKILL_LEVELS`
  constants.
- **Shared vocabulary.** `seqs.dfy` models `Array.prototype.filter` and
  `map` and the iteration order of a `Set`. `text.dfy` models `split`,
  `join`, `trim`, `includes` and case mapping. `wrappers.dfy` holds `Option`
  and `Result`.

Two points about the code that the model follows:

- **When the empty course list is caught.** The schema reports an issue per
  failing check, all at once. The check that the parsed course list is empty
  runs only inside `onSubmit`, after the schema has accepted the form.
- **zod behaviour.** zod's length and format failures do not abort the
  object's parse. So the registration schema's password-match refinement
  runs even when a field is too short, and `RegisterIssues` ends with
  `MatchIssues` in every case.

## Model

| member | source | states |
|---|---|---|
| Seqs.Filter | src/app/courses/page.tsx:36-47 | `filter` keeps the values satisfying the predicate and no others, never more elements than its input |
| Seqs.FilterCount | src/app/courses/page.tsx:36-47 | a filter keeps every occurrence of a value satisfying the predicate and no occurrence of any other value |
| Seqs.Map | src/app/scheduler/page.tsx:41 | `map` keeps the length and applies the function at every index |
| Seqs.FilterIsSubsequence | src/app/courses/page.tsx:33-47 | a filter's result is a subsequence of its input: order is kept |
| Seqs.FilterFilter | src/app/courses/page.tsx:42-47 | filtering by one predicate and then another is filtering once by their conjunction |
| Seqs.FilterExt | src/app/courses/page.tsx:35-40 | predicates that agree on the input filter it the same way |
| Seqs.FilterKeepsAll | src/app/courses/page.tsx:33-48 | a filter whose predicate holds everywhere returns its input unchanged |
| Seqs.FilterDropsAll | src/app/scheduler/page.tsx:41 | a filter whose predicate holds nowhere returns the empty list |
| Seqs.FilterIdempotent | src/app/courses/page.tsx:33-50 | filtering a filtered list again with the same predicate changes nothing |
| Seqs.FirstOccurrencesElements | src/app/courses/page.tsx:53-54 | the first occurrences of a list hold exactly its elements |
| Seqs.FirstOccurrencesDistinct | src/app/courses/page.tsx:53-54 | the first occurrences hold no element twice |
| Seqs.InFirstOccurrences | src/app/courses/page.tsx:53-54 | a value is among the first occurrences iff it occurs in the list |
| Seqs.InsertOneFirstOccurrences | src/app/courses/page.tsx:53 | adding one value to a `Set` appends it exactly when it is new |
| Seqs.InsertAllFirstOccurrences | src/app/courses/page.tsx:53-54 | inserting a list's values one by one into a `Set` yields them in first-occurrence order |
| Seqs.Distinct | src/app/courses/page.tsx:53-54 | `[...new Set(s)]` is the first occurrences of `s`: no duplicates, the same elements |
| Text.LeadingSpace | src/app/scheduler/page.tsx:41 | the counted prefix is whitespace and the next character is not |
| Text.TrailingSpace | src/app/scheduler/page.tsx:41 | the counted suffix is whitespace and the character before it is not |
| Text.Trim | src/app/scheduler/page.tsx:41 | `trim` returns an infix with no whitespace at either end and only whitespace around it |
| Text.TrimOfTrimmed | src/app/scheduler/page.tsx:41 | a string without surrounding whitespace is its own trim |
| Text.TrimAfterSpace | src/app/scheduler/page.tsx:41 | a leading whitespace character does not change the trim |
| Text.TrimIdempotent | src/app/scheduler/page.tsx:41 | trimming twice is trimming once |
| Text.TrimEmptyIff | src/app/scheduler/page.tsx:41 | the trim is empty iff every character is whitespace |
| Text.Split | src/app/scheduler/page.tsx:41 | `split` on one character yields one piece more than there are separators, none holding a separator |
| Text.JoinSplit | src/app/scheduler/page.tsx:41 | joining the pieces of a split with the separator gives back the string, which with `Split`'s piece count pins `split` on one character (also used at src/app/profile/page.tsx:31) |
| Text.SplitPrefix | src/app/scheduler/page.tsx:41 | a separator-free prefix extends the first piece of the split |
| Text.SplitJoin | src/app/scheduler/page.tsx:41 | splitting a join of separator-free pieces gives back the pieces |
| Text.SplitKeeps | src/app/scheduler/page.tsx:41 | every character of every piece is a character of the string |
| Text.Join | src/app/profile/page.tsx:31 | `join` starts with the first part, and its length is the parts' total plus one separator per neighbouring pair |
| Text.Contains | src/app/courses/page.tsx:37-38 | `includes` holds when the needle is a prefix, and only when the needle is no longer than the string |
| Text.Lower | src/app/courses/page.tsx:37-38 | `toLowerCase` keeps the length, lower-cases each character and leaves no upper-case ASCII letter |
| Text.Upper | src/app/profile/page.tsx:31 | `toUpperCase` keeps the length, upper-cases each character and leaves no lower-case ASCII letter |
| Text.ContainsIff | src/app/courses/page.tsx:37-38 | `includes` holds iff the needle occurs at some index |
| CourseTypes.CategoryListed | src/types/course.ts:26-29 | every category is in `COURSE_CATEGORIES` |
| CourseTypes.SkillLevelListed | src/types/course.ts:27-30 | every skill level is in `SKILL_LEVELS` |
| CourseTypes.CourseCategoriesComplete | src/types/course.ts:26-29 | `COURSE_CATEGORIES` lists all six categories exactly once, and their labels are distinct |
| CourseTypes.SkillLevelsComplete | src/types/course.ts:27-30 | `SKILL_LEVELS` is Beginner, Intermediate, Advanced, once each, and their labels are distinct |
| CourseTypes.CourseFieldsEnumerated | src/types/course.ts:6-7 | a course's category and skill level are members of the two constant lists |
| Forms.MinLength | src/app/auth/register/page.tsx:15 | `.min(n, message)` reports its message on its path iff the value is shorter than `n` |
| Forms.EmailIssues | src/app/auth/login/page.tsx:16 | the email is accepted iff it passes the format check and is non-empty |
| Forms.FirstError | src/app/auth/login/page.tsx:25 | a field shows a message iff an issue is on its path, and the message is that of such an issue |
| Forms.FirstErrorIsFirst | src/app/auth/login/page.tsx:25 | the shown message belongs to the earliest issue on the path |
| Forms.FirstErrorAppend | src/app/auth/register/page.tsx:14-22 | the first issue on a path in two issue lists is the first list's, if it has one |
| Forms.EmailFieldError | src/app/auth/login/page.tsx:16 | the email field shows the format message first, then the required message |
| Login.LoginIssues | src/app/auth/login/page.tsx:15-18 | the login form is accepted iff the email is well-formed and non-empty and the password has at least 6 characters |
| Login.LoginFieldErrors | src/app/auth/login/page.tsx:15-18 | an empty or malformed email and a short password are each reported on their own field |
| Login.DefaultValuesRejected | src/app/auth/login/page.tsx:26-29 | the empty default values never validate, and both fields show an error |
| Login.Submit | src/app/auth/login/page.tsx:32-42 | submitting shows the mock toast iff the form is valid, and nothing else happens |
| Register.MatchIssues | src/app/auth/register/page.tsx:19-22 | a mismatch of password and confirmation is reported on `confirmPassword` |
| Register.RegisterIssues | src/app/auth/register/page.tsx:14-22 | the registration is accepted iff the name has 2 or more characters, the email is well-formed and non-empty, the password has 6 or more, the confirmation is non-empty and equal to the password |
| Register.FirstErrorAmong | src/app/auth/register/page.tsx:14-22 | a field's message comes from its own checks when no other check reports on its path |
| Register.FullNameError | src/app/auth/register/page.tsx:15 | a name shorter than 2 characters shows the name message |
| Register.EmailError | src/app/auth/register/page.tsx:16 | the email field shows the format message, then the required message |
| Register.PasswordError | src/app/auth/register/page.tsx:17 | a password shorter than 6 characters shows the length message |
| Register.ConfirmPasswordError | src/app/auth/register/page.tsx:18-22 | an empty confirmation shows the required message, otherwise a mismatch shows "Passwords do not match." |
| Register.AcceptedPasswordsMatch | src/app/auth/register/page.tsx:17-22 | an accepted form has equal passwords of at least 6 characters |
| Register.DefaultValuesRejected | src/app/auth/register/page.tsx:30-36 | the empty default values never validate; name, password and confirmation each show their message |
| Register.Submit | src/app/auth/register/page.tsx:39-48 | submitting shows the mock toast iff the form is valid, and then the passwords match |
| Scheduler.HoursIssues | src/app/scheduler/page.tsx:18 | hours are accepted iff they are a number with 1 ≤ h ≤ 100, both bounds inclusive |
| Scheduler.HoursFieldError | src/app/scheduler/page.tsx:18 | below 1 shows the too-few message, above 100 the too-many message |
| Scheduler.ScheduleIssues | src/app/scheduler/page.tsx:16-19 | the form is accepted iff the course text is non-empty and the hours lie in [1, 100] |
| Scheduler.ScheduleFieldErrors | src/app/scheduler/page.tsx:16-19 | the courses field shows the required message exactly when the text is empty; the hours field shows its own first issue |
| Scheduler.DefaultValuesRejected | src/app/scheduler/page.tsx:30-33 | the default values fail only on the empty course text |
| Scheduler.TrimmedPieces | src/app/scheduler/page.tsx:41 | split and trimmed, the course text gives one piece more than it has commas, each trimmed and comma-free |
| Scheduler.ParseCourses | src/app/scheduler/page.tsx:41 | every parsed course is non-empty, trimmed and comma-free; every non-empty trimmed piece is kept as often as it occurs, in order; at most one more course than commas |
| Scheduler.BlankPieceTrimsEmpty | src/app/scheduler/page.tsx:41 | a piece of only commas and whitespace trims to nothing |
| Scheduler.BlankCourseTextParsesEmpty | src/app/scheduler/page.tsx:41-46 | text of only commas and whitespace passes the length check when non-empty yet parses to no course |
| Scheduler.TrimSpaced | src/app/scheduler/page.tsx:41 | a trimmed name after one space trims back to the name |
| Scheduler.SplitCommaList | src/app/scheduler/page.tsx:41 | splitting names joined with ", " gives the names, each after the first keeping its leading space |
| Scheduler.TrimSpacedNames | src/app/scheduler/page.tsx:41 | trimming those pieces gives back the names |
| Scheduler.TrimmedCommaList | src/app/scheduler/page.tsx:41 | the trimmed pieces of a ", "-separated list are its names |
| Scheduler.ParseCommaList | src/app/scheduler/page.tsx:41 | non-empty, trimmed, comma-free names written as a ", "-separated list parse back to the same names |
| Scheduler.ExampleCoursesParse | src/app/scheduler/page.tsx:41 | "Intro to Python, Web Basics, Data Structures" parses to its three course names |
| Scheduler.Validate | src/app/scheduler/page.tsx:16-19 | the schema hands on the values iff they are valid, and otherwise reports a non-empty list of issues |
| Scheduler.SchedulerPage.constructor | src/app/scheduler/page.tsx:24-26 | the page starts with no schedule, not loading, no error |
| Scheduler.SchedulerPage.OnSubmit | src/app/scheduler/page.tsx:36-62 | an empty parsed list sets the courses error and calls nothing; otherwise one call is made with the parsed courses while the page shows loading with schedule and error cleared, and success sets the schedule and failure the fixed message; loading is off at the end |
| Scheduler.SchedulerPage.HandleSubmit | src/app/scheduler/page.tsx:76 | invalid input only sets the field errors, to each field's first issue; valid input clears them and runs `onSubmit` |
| Catalog.FilterCourses | src/app/courses/page.tsx:32-51 | the three conditional filter stages give the courses passing every active filter, in catalogue order |
| Catalog.Visible | src/app/courses/page.tsx:33-48 | the listed courses hold each course passing every active filter as often as the catalogue does, and no other course |
| Catalog.VisibleIsSubsequence | src/app/courses/page.tsx:33-47 | the listed courses are a subsequence of the catalogue |
| Catalog.InitialSettingsShowAll | src/app/courses/page.tsx:33-48 | with no term and both selectors on `'all'` every course is listed |
| Catalog.VisibleSoundAndComplete | src/app/courses/page.tsx:35-48 | a course is listed iff it is in the catalogue, matches the selected category and level, and, for a non-empty term, has it in its lower-cased title or description |
| Catalog.VisibleIdempotent | src/app/courses/page.tsx:33-50 | filtering the listed courses again with the same settings changes nothing |
| Catalog.EmptyTermMatchesEverything | src/app/courses/page.tsx:35 | the empty term is in every title, so skipping the search stage loses nothing |
| Catalog.CategoriesOf | src/app/courses/page.tsx:53 | one category per course, in catalogue order |
| Catalog.SkillLevelsOf | src/app/courses/page.tsx:54 | one skill level per course, in catalogue order |
| Catalog.OnlyEach | src/app/courses/page.tsx:53-54 | each value becomes one option, in order |
| Catalog.Options | src/app/courses/page.tsx:53-54 | the options are `'all'` then each distinct value once, in first-occurrence order, with no option twice |
| Catalog.OptionsCoverValues | src/app/courses/page.tsx:53-54 | every value has an option, and every option after `'all'` is one of the values |
| Catalog.CategoryOptions | src/app/courses/page.tsx:53 | `uniqueCategories` is `'all'`, then each category of the catalogue once, in first-occurrence order |
| Catalog.SkillLevelOptions | src/app/courses/page.tsx:54 | `uniqueSkillLevels` is `'all'`, then each skill level of the catalogue once, in first-occurrence order |
| Profile.JoinEmptySeparator | src/app/profile/page.tsx:31 | `join("")` is concatenation |
| Profile.JoinedFirstLetters | src/app/profile/page.tsx:31 | joining the mapped first letters concatenates them |
| Profile.HeadsOfWords | src/app/profile/page.tsx:31 | the concatenated first letters are the first characters of the non-empty pieces |
| Profile.Initials | src/app/profile/page.tsx:31 | one initial per non-empty space-separated piece, in order: its first character upper-cased; empty pieces contribute nothing; no initial is an ASCII lower-case letter |
| Profile.InitialsIgnoreSpacing | src/app/profile/page.tsx:31 | names with the same words have the same initials, however they are spaced |
| Profile.TwoWords | src/app/profile/page.tsx:31 | two non-empty, space-free words joined by one space split into exactly those two words |
| Profile.FixtureWords | src/app/profile/page.tsx:12 | the fixture name has the words "Alex" and "Johnson" |
| Profile.FixtureInitials | src/app/profile/page.tsx:12-31 | "Alex Johnson" yields "AJ" |
| Profile.CoursePath | src/app/profile/page.tsx:57 | a course's page path is `/courses/` followed by its id |
| Profile.RenderDashboard | src/app/profile/page.tsx:49-84 | course cards are shown iff there are enrolled courses, one per course in order, with its title, progress and page |
| Profile.CardLinksIdentifyCourses | src/app/profile/page.tsx:57-67 | two cards link to the same page iff their courses have the same id |
| Profile.RenderProfile | src/app/profile/page.tsx:28-49 | the avatar falls back to the initials, the bio shows iff non-empty, the dashboard is the one rendered from the enrolled courses |
| Profile.FixtureProfile | src/app/profile/page.tsx:11-22 | the fixture user shows "AJ", a bio and three course cards |

## Left out

- The study-schedule flow, `src/ai/flows/study-schedule-generator.ts`, is
  modelled only by its input and output records (lines 15-32). The prompt,
  the Genkit flow and the remote model call are a parameter of the model: a
  function from input to `Generated(output)` or `GenerationFailed`.
- React mechanics are not modelled: `useState`, `useEffect`, `useMemo`,
  render batching and the simulated `setTimeout` load of the catalogue. The
  state `onSubmit` passes through is recorded only at the generator call.
- Overlapping submissions are not modelled, because each submit is modelled
  as running to completion.
- Console output is not modelled, because it holds no state. Toasts appear
  only as the value a submit returns.
- Presentation is not modelled: the header, the layout, the course card, the
  filter widgets, the video player and the home page.
- zod's email regular expression is the parameter `isEmail`, because it is
  library code that is not part of this model.
- `z.coerce.number` is not modelled as string-to-number conversion. Its
  possible results are the datatype `Coerced`: a finite real, either
  infinity, or NaN.
- Scheduler.HoursIssues: assumes that NaN is reported only with zod's
  generic "Expected number, received nan" message, as zod's number parser
  does.
- Text.LowerChar and Text.UpperChar: case mapping covers the ASCII letters
  only, because full Unicode case mapping (including mappings that change a
  string's length) is out of scope.
- JavaScript `number` fields that only hold whole numbers in the fixtures, `enrollmentCount` of a course and `progress` of an enrolled course, are modelled as `int`; nothing in the model computes with them.
- Forms.MinLength: compares the number of characters, whereas zod's `.min(n)` compares the JavaScript `length` in UTF-16 code units. A character outside the Basic Multilingual Plane counts 1 here and 2 in JavaScript: a password of three emoji has length 6 and passes `.min(6)`, but the model rejects it.
- Text.IsWhitespace is the ECMAScript whitespace and line-terminator set, but
  strings are sequences of characters rather than UTF-16 code units, so `n[0]`
  of a name starting with a surrogate pair is not modelled.
- The catalogue's fixture `dummyCourses` (`src/lib/dummy-data.ts`) is not
  part of this model. The option lists are therefore functions of the
  catalogue passed to them.
- Catalog.FilterCourses: returns the list rather than writing the
  `filteredCourses` state, because the effect's only write is that one
  assignment.
- The profile page's static settings and referral cards are not modelled,
  because they hold no logic.
