/**
 * The course catalogue page: the search, category and skill-level filters
 * applied in sequence, and the option lists of the two selectors.
 */
module Catalog {
  import opened Seqs
  import opened Text
  import opened CourseTypes

  /** A selector's value: `'all'` or one value. */
  datatype Choice<T> = All | Only(value: T)

  /** The page's filter settings. */
  datatype Settings = Settings(searchTerm: string, category: Choice<Category>, skillLevel: Choice<SkillLevel>)

  /** The settings the page starts with. */
  const InitialSettings := Settings("", All, All)

  /** The search stage keeps a course whose lower-cased title or description includes the lower-cased term. */
  predicate SearchHit(term: string, c: Course) {
    Contains(Lower(c.title), Lower(term)) || Contains(Lower(c.description), Lower(term))
  }

  /** Each stage's test, holding of every course when the stage is skipped. */
  predicate SearchOk(s: Settings, c: Course) {
    s.searchTerm == [] || SearchHit(s.searchTerm, c)
  }

  predicate CategoryOk(s: Settings, c: Course) {
    s.category.All? || c.category == s.category.value
  }

  predicate SkillLevelOk(s: Settings, c: Course) {
    s.skillLevel.All? || c.skillLevel == s.skillLevel.value
  }

  /** A course passes every active filter. */
  predicate Shown(s: Settings, c: Course) {
    SearchOk(s, c) && CategoryOk(s, c) && SkillLevelOk(s, c)
  }

  function ShownBy(s: Settings): Course -> bool {
    c => Shown(s, c)
  }

  /**
   * The courses the page lists: those passing every active filter, in
   * catalogue order, each as often as the catalogue holds it.
   */
  function Visible(courses: seq<Course>, s: Settings): (r: seq<Course>)
    ensures |r| <= |courses|
    ensures forall c :: Count(r, c) == if Shown(s, c) then Count(courses, c) else 0
  {
    forall c
      ensures Count(Filter(ShownBy(s), courses), c) == if Shown(s, c) then Count(courses, c) else 0
    {
      FilterCount(ShownBy(s), courses, c);
    }
    Filter(ShownBy(s), courses)
  }

  /**
   * The filter effect: starting from all courses, each active stage filters what
   * the previous ones kept; the result is the courses passing every active filter.
   */
  method FilterCourses(courses: seq<Course>, s: Settings) returns (filteredCourses: seq<Course>)
    ensures filteredCourses == Visible(courses, s)
  {
    var tempCourses := courses;
    ghost var kept: Course -> bool := c => SearchOk(s, c);

    if s.searchTerm != [] {
      tempCourses := Filter(c => SearchHit(s.searchTerm, c), tempCourses);
      FilterExt(c => SearchHit(s.searchTerm, c), kept, courses);
    } else {
      FilterKeepsAll(kept, courses);
    }
    assert tempCourses == Filter(kept, courses);

    ghost var kept2: Course -> bool := c => SearchOk(s, c) && CategoryOk(s, c);
    if s.category.Only? {
      var category := s.category.value;
      FilterFilter(kept, (c: Course) => c.category == category, kept2, courses);
      tempCourses := Filter((c: Course) => c.category == category, tempCourses);
    } else {
      FilterExt(kept, kept2, courses);
    }
    assert tempCourses == Filter(kept2, courses);

    if s.skillLevel.Only? {
      var level := s.skillLevel.value;
      FilterFilter(kept2, (c: Course) => c.skillLevel == level, ShownBy(s), courses);
      tempCourses := Filter((c: Course) => c.skillLevel == level, tempCourses);
    } else {
      FilterExt(kept2, ShownBy(s), courses);
    }
    filteredCourses := tempCourses;
  }

  /** The listed courses keep their catalogue order. */
  lemma VisibleIsSubsequence(courses: seq<Course>, s: Settings)
    ensures IsSubsequence(Visible(courses, s), courses)
  {
    FilterIsSubsequence(ShownBy(s), courses);
  }

  /** With no search term and both selectors on `'all'`, every course is listed. */
  lemma InitialSettingsShowAll(courses: seq<Course>)
    ensures Visible(courses, InitialSettings) == courses
  {
    FilterKeepsAll(ShownBy(InitialSettings), courses);
  }

  /**
   * A course is listed exactly when it is in the catalogue and passes every
   * active filter: a selected category or level is matched exactly, a non-empty
   * term occurs in the lower-cased title or description.
   */
  lemma VisibleSoundAndComplete(courses: seq<Course>, s: Settings, c: Course)
    ensures c in Visible(courses, s) <==>
            && c in courses
            && (s.searchTerm != [] ==> Contains(Lower(c.title), Lower(s.searchTerm))
                                       || Contains(Lower(c.description), Lower(s.searchTerm)))
            && (s.category.Only? ==> c.category == s.category.value)
            && (s.skillLevel.Only? ==> c.skillLevel == s.skillLevel.value)
  {
    assert ShownBy(s)(c) == Shown(s, c);
  }

  /** Filtering the listed courses again with the same settings changes nothing. */
  lemma VisibleIdempotent(courses: seq<Course>, s: Settings)
    ensures Visible(Visible(courses, s), s) == Visible(courses, s)
  {
    FilterIdempotent(ShownBy(s), courses);
  }

  /** Skipping the search stage on an empty term loses nothing: the empty term is in every string. */
  lemma EmptyTermMatchesEverything(c: Course)
    ensures SearchHit([], c)
  {
    assert Lower([]) == [];
  }

  /** Each course's category, in catalogue order. */
  function CategoriesOf(courses: seq<Course>): (r: seq<Category>)
    ensures |r| == |courses|
    ensures forall i :: 0 <= i < |courses| ==> r[i] == courses[i].category
  {
    Map((c: Course) => c.category, courses)
  }

  function SkillLevelsOf(courses: seq<Course>): (r: seq<SkillLevel>)
    ensures |r| == |courses|
    ensures forall i :: 0 <= i < |courses| ==> r[i] == courses[i].skillLevel
  {
    Map((c: Course) => c.skillLevel, courses)
  }

  /** `Only(x)` for each `x`, in order. */
  function OnlyEach<T>(xs: seq<T>): (r: seq<Choice<T>>)
    ensures |r| == |xs|
    ensures forall i :: 0 <= i < |xs| ==> r[i] == Only(xs[i])
  {
    Map((x: T) => Only(x), xs)
  }

  /**
   * `['all', ...new Set(values)]`: `'all'` first, then each distinct value
   * once, in order of first occurrence.
   */
  function Options<T(==)>(values: seq<T>): (r: seq<Choice<T>>)
    ensures |r| >= 1 && r[0] == All
    ensures r[1..] == OnlyEach(FirstOccurrences(values))
    ensures NoDuplicates(r)
  {
    var distinct := Distinct(values);
    var r := [All] + OnlyEach(distinct);
    assert r[1..] == OnlyEach(distinct);
    r
  }

  /** Every value has an option, and every option after `'all'` is one of the values. */
  lemma OptionsCoverValues<T>(values: seq<T>)
    ensures forall i :: 0 <= i < |values| ==> Only(values[i]) in Options(values)
    ensures forall i :: 1 <= i < |Options(values)| ==>
              Options(values)[i].Only? && Options(values)[i].value in values
  {
    var r := Options(values);
    var distinct := Distinct(values);
    assert r[1..] == OnlyEach(distinct);
    forall i | 0 <= i < |values|
      ensures Only(values[i]) in r
    {
      var j :| 0 <= j < |distinct| && distinct[j] == values[i];
      assert r[1..][j] == Only(values[i]);
    }
    forall i | 1 <= i < |r|
      ensures r[i].Only? && r[i].value in values
    {
      assert r[i] == r[1..][i - 1] == Only(distinct[i - 1]);
    }
  }

  /**
   * The category selector's options (`uniqueCategories`): `'all'`, then each
   * category of the catalogue once, in order of first occurrence.
   */
  function CategoryOptions(catalogue: seq<Course>): (r: seq<Choice<Category>>)
    ensures |r| >= 1 && r[0] == All && NoDuplicates(r)
    ensures r[1..] == OnlyEach(FirstOccurrences(CategoriesOf(catalogue)))
    ensures forall i :: 0 <= i < |catalogue| ==> Only(catalogue[i].category) in r
    ensures forall i :: 1 <= i < |r| ==> r[i].Only? && r[i].value in CategoriesOf(catalogue)
  {
    var categories := CategoriesOf(catalogue);
    OptionsCoverValues(categories);
    Options(categories)
  }

  /**
   * The skill-level selector's options (`uniqueSkillLevels`): `'all'`, then
   * each level of the catalogue once, in order of first occurrence.
   */
  function SkillLevelOptions(catalogue: seq<Course>): (r: seq<Choice<SkillLevel>>)
    ensures |r| >= 1 && r[0] == All && NoDuplicates(r)
    ensures r[1..] == OnlyEach(FirstOccurrences(SkillLevelsOf(catalogue)))
    ensures forall i :: 0 <= i < |catalogue| ==> Only(catalogue[i].skillLevel) in r
    ensures forall i :: 1 <= i < |r| ==> r[i].Only? && r[i].value in SkillLevelsOf(catalogue)
  {
    var levels := SkillLevelsOf(catalogue);
    OptionsCoverValues(levels);
    Options(levels)
  }
}
