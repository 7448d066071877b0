/** The course records and the two enumerations the catalogue is built from. */
module CourseTypes {
  import opened Wrappers

  datatype Category = WebDevelopment | DataScience | MobileApps | Cybersecurity | AiMl | GameDevelopment

  datatype SkillLevel = Beginner | Intermediate | Advanced

  /** The label of a category, as the pages display it and as the string union spells it. */
  function CategoryName(c: Category): string {
    match c
    case WebDevelopment => "Web Development"
    case DataScience => "Data Science"
    case MobileApps => "Mobile Apps"
    case Cybersecurity => "Cybersecurity"
    case AiMl => "AI & ML"
    case GameDevelopment => "Game Development"
  }

  function SkillLevelName(l: SkillLevel): string {
    match l
    case Beginner => "Beginner"
    case Intermediate => "Intermediate"
    case Advanced => "Advanced"
  }

  /** A lesson: id, title, video id and duration are required; the description is optional. */
  datatype Lesson = Lesson(
    id: string,
    title: string,
    videoId: string,
    duration: string,
    description: Option<string>)

  /**
   * A course: id, title, description, category, skill level and image URL are
   * required; every other field is optional.
   */
  datatype Course = Course(
    id: string,
    title: string,
    description: string,
    longDescription: Option<string>,
    category: Category,
    skillLevel: SkillLevel,
    imageUrl: string,
    dataAiHint: Option<string>,
    lessons: Option<seq<Lesson>>,
    instructor: Option<string>,
    duration: Option<string>,
    tags: Option<seq<string>>,
    rating: Option<real>,
    enrollmentCount: Option<int>)

  /** `COURSE_CATEGORIES`. */
  const CourseCategories: seq<Category> :=
    [WebDevelopment, DataScience, MobileApps, Cybersecurity, AiMl, GameDevelopment]

  /** `SKILL_LEVELS`. */
  const SkillLevels: seq<SkillLevel> := [Beginner, Intermediate, Advanced]

  /** Every category is listed in `COURSE_CATEGORIES`, at its position in the union. */
  lemma CategoryListed(c: Category)
    ensures c in CourseCategories
  {
    var k := match c
      case WebDevelopment => 0
      case DataScience => 1
      case MobileApps => 2
      case Cybersecurity => 3
      case AiMl => 4
      case GameDevelopment => 5;
    assert CourseCategories[k] == c;
  }

  /** Every skill level is listed in `SKILL_LEVELS`. */
  lemma SkillLevelListed(l: SkillLevel)
    ensures l in SkillLevels
  {
    var k := match l
      case Beginner => 0
      case Intermediate => 1
      case Advanced => 2;
    assert SkillLevels[k] == l;
  }

  /** `COURSE_CATEGORIES` lists every category exactly once, and the six labels are distinct. */
  lemma CourseCategoriesComplete()
    ensures |CourseCategories| == 6
    ensures forall c: Category :: c in CourseCategories
    ensures forall i, j :: 0 <= i < j < 6 ==> CourseCategories[i] != CourseCategories[j]
    ensures forall c, d :: CategoryName(c) == CategoryName(d) ==> c == d
  {
    forall c: Category
      ensures c in CourseCategories
    {
      CategoryListed(c);
    }
  }

  /** `SKILL_LEVELS` lists Beginner, Intermediate and Advanced, once each and in that order. */
  lemma SkillLevelsComplete()
    ensures SkillLevels == [Beginner, Intermediate, Advanced]
    ensures forall l: SkillLevel :: l in SkillLevels
    ensures forall i, j :: 0 <= i < j < 3 ==> SkillLevels[i] != SkillLevels[j]
    ensures forall l, m :: SkillLevelName(l) == SkillLevelName(m) ==> l == m
  {
    forall l: SkillLevel
      ensures l in SkillLevels
    {
      SkillLevelListed(l);
    }
  }

  /** A course's category and skill level are always members of the two constant lists. */
  lemma CourseFieldsEnumerated(course: Course)
    ensures course.category in CourseCategories
    ensures course.skillLevel in SkillLevels
  {
    CategoryListed(course.category);
    SkillLevelListed(course.skillLevel);
  }
}
