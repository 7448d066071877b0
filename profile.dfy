/**
 * The profile page: the avatar's fallback initials computed from the user's
 * name, and the learning dashboard, which lists a card per enrolled course or
 * else an empty-state card.
 */
module Profile {
  import opened Seqs
  import opened Text
  import opened Wrappers

  /** `n[0]` as `join` renders it: the first character, or nothing for an empty piece. */
  function FirstLetter(piece: string): string {
    if piece == [] then [] else [piece[0]]
  }

  /** The words of a name: its non-empty space-separated pieces, in order. */
  function Words(name: string): seq<string> {
    Filter(NonEmpty, Split(name, ' '))
  }

  /** Joining with the empty separator is concatenation. */
  lemma JoinEmptySeparator(parts: seq<string>)
    requires parts != []
    ensures Join(parts, []) == parts[0] + Join(parts[1..], [])
  {
    if |parts| == 1 {
      assert parts[1..] == [];
      assert parts[0] + [] == parts[0];
    }
  }

  /** The first letters of the pieces, concatenated. */
  function Heads(pieces: seq<string>): string
    decreases |pieces|
  {
    if pieces == [] then [] else FirstLetter(pieces[0]) + Heads(pieces[1..])
  }

  lemma {:induction false} JoinedFirstLetters(pieces: seq<string>)
    ensures Join(Map(FirstLetter, pieces), []) == Heads(pieces)
    decreases |pieces|
  {
    if pieces != [] {
      var letters := Map(FirstLetter, pieces);
      JoinEmptySeparator(letters);
      assert letters[1..] == Map(FirstLetter, pieces[1..]);
      JoinedFirstLetters(pieces[1..]);
    }
  }

  /** The first letters of the pieces are the first characters of the non-empty pieces. */
  lemma {:induction false} HeadsOfWords(pieces: seq<string>)
    ensures |Heads(pieces)| == |Filter(NonEmpty, pieces)|
    ensures forall k :: 0 <= k < |Filter(NonEmpty, pieces)| ==>
              Filter(NonEmpty, pieces)[k] != [] && Heads(pieces)[k] == Filter(NonEmpty, pieces)[k][0]
    decreases |pieces|
  {
    if pieces != [] {
      var heads, words := Heads(pieces), Filter(NonEmpty, pieces);
      var heads', words' := Heads(pieces[1..]), Filter(NonEmpty, pieces[1..]);
      HeadsOfWords(pieces[1..]);
      if pieces[0] != [] {
        assert heads == [pieces[0][0]] + heads';
        assert words == [pieces[0]] + words';
        forall k | 1 <= k < |words|
          ensures words[k] != [] && heads[k] == words[k][0]
        {
          assert words[k] == words'[k - 1] && heads[k] == heads'[k - 1];
        }
      } else {
        assert heads == heads';
      }
    }
  }

  /**
   * `name.split(" ").map(n => n[0]).join("").toUpperCase()`: one character per
   * word of the name, in word order, the word's first character upper-cased.
   * Empty pieces left by repeated, leading or trailing spaces contribute
   * nothing, and no initial is a lower-case letter.
   */
  function Initials(name: string): (r: string)
    ensures |r| == |Words(name)|
    ensures forall k :: 0 <= k < |Words(name)| ==>
              Words(name)[k] != [] && r[k] == UpperChar(Words(name)[k][0])
    ensures forall k :: 0 <= k < |r| ==> !('a' <= r[k] <= 'z')
  {
    JoinedFirstLetters(Split(name, ' '));
    HeadsOfWords(Split(name, ' '));
    Upper(Join(Map(FirstLetter, Split(name, ' ')), []))
  }

  /** Names with the same words, however they are spaced, have the same initials. */
  lemma InitialsIgnoreSpacing(a: string, b: string)
    requires Words(a) == Words(b)
    ensures Initials(a) == Initials(b)
  {
  }

  /** The page's fixture user is called "Alex Johnson". */
  const FixtureName := "Alex Johnson"

  /** Two space-free words joined by one space are the name's words. */
  lemma TwoWords(first: string, last: string)
    requires first != [] && last != [] && ' ' !in first && ' ' !in last
    ensures Words(first + [' '] + last) == [first, last]
  {
    var words := [first, last];
    assert Join(words[1..], [' ']) == last;
    assert Join(words, [' ']) == first + [' '] + last;
    SplitJoin(words, ' ');
    FilterKeepsAll(NonEmpty, words);
  }

  lemma FixtureWords()
    ensures Words(FixtureName) == ["Alex", "Johnson"]
  {
    var first, last := "Alex", "Johnson";
    assert FixtureName == first + [' '] + last;
    TwoWords(first, last);
  }

  /** "Alex Johnson" is shown as "AJ". */
  lemma FixtureInitials()
    ensures Initials(FixtureName) == "AJ"
  {
    FixtureWords();
  }

  /** One course on the dashboard: id, title, progress in percent, image and image hint. */
  datatype EnrolledCourse = EnrolledCourse(id: string, title: string, progress: int, imageUrl: string, dataAiHint: string)

  /** The user the page shows. */
  datatype User = User(
    name: string,
    email: string,
    avatarUrl: string,
    dataAiHint: string,
    bio: string,
    enrolledCourses: seq<EnrolledCourse>)

  /** A course card: its title, its progress bar's value and the course page both its links open. */
  datatype CourseCard = CourseCard(title: string, progress: int, href: string)

  /** The learning dashboard: a card per enrolled course, or the "No Courses Yet" card. */
  datatype Dashboard = CourseCards(cards: seq<CourseCard>) | NoCoursesYet

  /** What the page shows of a user. */
  datatype ProfileView = ProfileView(avatarFallback: string, bio: Option<string>, dashboard: Dashboard)

  /** `/courses/${id}`. */
  function CoursePath(id: string): (r: string)
    ensures |r| == |id| + 9
    ensures r[..9] == "/courses/"
    ensures r[9..] == id
  {
    "/courses/" + id
  }

  /**
   * The dashboard lists a card per enrolled course, in order, each linking to
   * that course's page, when there is one; otherwise it shows the empty state.
   */
  function RenderDashboard(enrolled: seq<EnrolledCourse>): (r: Dashboard)
    ensures r.NoCoursesYet? <==> enrolled == []
    ensures r.CourseCards? ==>
              && |r.cards| == |enrolled|
              && forall i :: 0 <= i < |enrolled| ==>
                   r.cards[i].title == enrolled[i].title &&
                   r.cards[i].progress == enrolled[i].progress &&
                   r.cards[i].href == CoursePath(enrolled[i].id)
  {
    if |enrolled| > 0 then
      CourseCards(Map((c: EnrolledCourse) => CourseCard(c.title, c.progress, CoursePath(c.id)), enrolled))
    else
      NoCoursesYet
  }

  /** Two cards link to the same page only when their courses have the same id. */
  lemma CardLinksIdentifyCourses(enrolled: seq<EnrolledCourse>, i: int, j: int)
    requires 0 <= i < |enrolled| && 0 <= j < |enrolled|
    ensures RenderDashboard(enrolled).CourseCards?
    ensures RenderDashboard(enrolled).cards[i].href == RenderDashboard(enrolled).cards[j].href
            <==> enrolled[i].id == enrolled[j].id
  {
    var cards := RenderDashboard(enrolled).cards;
    if cards[i].href == cards[j].href {
      assert cards[i].href[9..] == cards[j].href[9..];
    }
  }

  /**
   * The page: the avatar falls back to the initials of the name, the bio is
   * shown when it is non-empty, and the dashboard follows the enrolled courses.
   */
  function RenderProfile(user: User): (r: ProfileView)
    ensures r.avatarFallback == Initials(user.name)
    ensures r.bio.Some? <==> user.bio != []
    ensures r.bio.Some? ==> r.bio.value == user.bio
    ensures r.dashboard == RenderDashboard(user.enrolledCourses)
    ensures r.dashboard.CourseCards? <==> user.enrolledCourses != []
  {
    ProfileView(Initials(user.name), if user.bio != [] then Some(user.bio) else None, RenderDashboard(user.enrolledCourses))
  }

  /** The page's fixture user. */
  const FixtureUser := User(
    FixtureName,
    "alex.johnson@example.com",
    "https://placehold.co/100x100.png",
    "profile person",
    "Passionate learner and aspiring full-stack developer. Currently exploring Next.js and AI, and enjoying the journey with CodeLeap!",
    [ EnrolledCourse("1", "Next.js for Beginners", 75, "https://placehold.co/300x150.png", "technology abstract"),
      EnrolledCourse("5", "Introduction to Machine Learning", 40, "https://placehold.co/300x150.png", "AI abstract"),
      EnrolledCourse("6", "Full-Stack Web Development Bootcamp", 15, "https://placehold.co/300x150.png", "coding screen") ])

  /** The fixture user is shown as "AJ", with their bio and three course cards. */
  lemma FixtureProfile()
    ensures RenderProfile(FixtureUser).avatarFallback == "AJ"
    ensures RenderProfile(FixtureUser).bio.Some?
    ensures RenderProfile(FixtureUser).dashboard.CourseCards?
    ensures |RenderProfile(FixtureUser).dashboard.cards| == 3
  {
    FixtureInitials();
  }
}
