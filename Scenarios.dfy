/** The conversations the assistant's page suggests and its browser tests
    walk through, followed from the typed text to the replies on
    Contoso University's records. */
module Scenarios {
  import opened Seqs
  import opened Text
  import opened Data
  import opened Tools
  import opened Router
  import opened Formatter
  import opened Assistant

  /** The suggested prompt "Find students in Computer Science" is a student
      search, but "students" is not the stop word "student", so the query
      is "students Computer Science". On records where that matches nobody
      (Contoso University's, by `FindStudentsFindsNobody`) the reply is the
      no-results text. */
  lemma FindStudentsInComputerScience(db: Campus, id: nat)
    ensures |Answer(db, FindStudentsPrompt, id)| == 2
    ensures Answer(db, FindStudentsPrompt, id)[0].toolCall ==
      Some(ToolCall(SearchStudentsName, map["query" := "students Computer Science"],
        SearchStudents(db, "students Computer Science")))
    ensures SearchStudents(db, "students Computer Science").data.students == [] ==>
      Answer(db, FindStudentsPrompt, id)[1].content == NoResultsPrefix + Answer(db, FindStudentsPrompt, id)[0].content
  {
    FindStudentsIsStudentSearch();
    FindStudentsQuery();
    StudentSearchReply(db, FindStudentsPrompt, id);
    EmptyResultReply(db, FindStudentsPrompt, id);
  }

  /** On Contoso University's records the suggested prompt finds nobody. */
  lemma FindStudentsOnUniversity(id: nat)
    ensures var r := Answer(University, FindStudentsPrompt, id);
      |r| == 2 && r[1].content == NoResultsPrefix + r[0].content
  {
    FindStudentsFindsNobody();
    FindStudentsInComputerScience(University, id);
  }

  const StatisticsPrompt: string := "Show university statistics"

  /** The statistics prompt, lower-cased. */
  const StatisticsLower: string := "show university statistics"

  lemma StatisticsPromptLower()
    ensures Lower(StatisticsPrompt) == StatisticsLower
  {
    var l := Lower(StatisticsPrompt);
    assert l[0] == 's';
  }

  lemma StatisticsLowerNoStudent()
    ensures !Contains(StatisticsLower, "student")
  {
    assert 'd' !in StatisticsLower;
    NoChar(StatisticsLower, "student", 3);
  }

  lemma StatisticsLowerNoCourse()
    ensures !Contains(StatisticsLower, "course")
  {
    NoPair(StatisticsLower, "course", 0);
  }

  lemma StatisticsLowerNoTeacher()
    ensures !Contains(StatisticsLower, "teacher")
  {
    NoPair(StatisticsLower, "teacher", 1);
  }

  lemma StatisticsLowerNoFaculty()
    ensures !Contains(StatisticsLower, "faculty")
    ensures !Contains(StatisticsLower, "professor")
  {
    assert 'f' !in StatisticsLower;
    NoChar(StatisticsLower, "faculty", 0);
    assert 'p' !in StatisticsLower;
    NoChar(StatisticsLower, "professor", 0);
  }

  /** "Show university statistics" mentions no student, course or teacher
      keyword but contains "stat". */
  lemma StatisticsPromptIsStatistics()
    ensures Classify(StatisticsPrompt) == Statistics
  {
    StatisticsPromptLower();
    StatisticsLowerNoStudent();
    StatisticsLowerNoCourse();
    StatisticsLowerNoTeacher();
    StatisticsLowerNoFaculty();
    assert StatisticsLower[16..20] == "stat";
    ContainsAt(StatisticsLower, "stat", 16);
  }

  /** No department name of a course spans two lines. */
  lemma CourseDepartmentsOneLine()
    ensures forall i :: 0 <= i < |University.courses| ==> OneLine(University.courses[i].department)
  {
    var cs := University.courses;
    forall i | 0 <= i < |cs|
      ensures OneLine(cs[i].department)
    {
      if i < 3 {
        assert cs[i].department == "Computer Science";
      } else if i < 5 {
        assert cs[i].department == "Mathematics";
      } else if i == 5 {
        assert cs[i].department == "Business";
      } else if i == 6 {
        assert cs[i].department == "Engineering";
      } else {
        assert cs[i].department == "Physics";
      }
    }
  }

  /** "Show university statistics" is answered with the overview header, a
      blank line and then, in this order, the number of students, courses
      and faculty, the total enrollments and the departments. */
  lemma ShowStatistics(id: nat)
    ensures |Answer(University, StatisticsPrompt, id)| == 2
    ensures var call := Answer(University, StatisticsPrompt, id)[0].toolCall;
      && call.Some? && call.value.name == StatsName && call.value.result.data.StatsRecord?
      && call.value.result.data.stats.totalStudents == 6
      && call.value.result.data.stats.totalCourses == 8
      && call.value.result.data.stats.totalFaculty == 6
      && SplitOn(Answer(University, StatisticsPrompt, id)[1].content, '\n') == StatsLines(call.value.result.data.stats)
  {
    StatisticsPromptIsStatistics();
    CourseDepartmentsOneLine();
    StatisticsReply(University, StatisticsPrompt, id);
  }

  const CoursesPrompt: string := "List all courses"

  /** The course prompt, lower-cased. */
  const CoursesLower: string := "list all courses"

  lemma CoursesPromptLower()
    ensures Lower(CoursesPrompt) == CoursesLower
  {
    var l := Lower(CoursesPrompt);
    assert l[0] == 'l';
  }

  /** "List all courses", in any capitalisation, has "course" and "list"
      but not "student". */
  lemma CoursesPromptIsCourseListing(message: string)
    requires Lower(message) == CoursesLower
    ensures Classify(message) == CourseListing
  {
    assert 'd' !in CoursesLower;
    NoChar(CoursesLower, "student", 3);
    assert CoursesLower[9..15] == "course";
    ContainsAt(CoursesLower, "course", 9);
    assert CoursesLower[0..4] == "list";
    ContainsAt(CoursesLower, "list", 0);
  }

  const TeachesPrompt: string := "Who teaches in Mathematics?"

  /** The example question of the introduction, lower-cased. */
  const TeachesLower: string := "who teaches in mathematics?"

  lemma TeachesPromptLower()
    ensures Lower(TeachesPrompt) == TeachesLower
  {
    var l := Lower(TeachesPrompt);
    assert l[0] == 'w';
  }

  /** A lower-cased text without d, r, f, v, y or l and without "st"
      holds no keyword of any rule. */
  lemma NoRuleWithout(l: string)
    requires forall j :: 0 <= j < |l| ==>
      l[j] != 'd' && l[j] != 'r' && l[j] != 'f' && l[j] != 'v' && l[j] != 'y' && l[j] != 'l'
    requires forall j :: 0 <= j < |l| - 1 ==> !(l[j] == 's' && l[j + 1] == 't')
    ensures !AsksStudents(l) && !AsksCourses(l) && !AsksTeachers(l)
    ensures !AsksStatistics(l) && !AsksHelp(l)
  {
    NoChar(l, "student", 3);
    NoChar(l, "course", 3);
    NoChar(l, "teacher", 6);
    NoChar(l, "faculty", 0);
    NoChar(l, "professor", 1);
    NoPair(l, "stat", 0);
    NoChar(l, "overview", 1);
    NoChar(l, "how many", 7);
    NoChar(l, "total", 4);
    NoChar(l, "help", 2);
    NoChar(l, "what can you", 9);
  }

  /** "who teaches in mathematics?" has no d, r, f, v, y or l and no "st",
      so no keyword of any rule occurs in it. */
  lemma TeachesLowerMatchesNoRule()
    ensures !AsksStudents(TeachesLower) && !AsksCourses(TeachesLower) && !AsksTeachers(TeachesLower)
    ensures !AsksStatistics(TeachesLower) && !AsksHelp(TeachesLower)
  {
    NoRuleWithout(TeachesLower);
  }

  /** The introduction suggests asking "Who teaches in Mathematics?", yet
      that question, in any capitalisation, matches no rule ("teaches" is
      not "teacher") and is answered with the introduction itself. */
  lemma TeachesInMathematics(db: Campus, message: string, id: nat)
    requires Lower(message) == TeachesLower
    ensures Classify(message) == Intro
    ensures Answer(db, message, id) == [AssistantMessage(id, IntroText)]
  {
    TeachesLowerMatchesNoRule();
    FixedAnswers(db, message, id);
  }

  /** The suggested wording itself gets the introduction back. */
  lemma TeachesPromptGetsIntroduction(db: Campus, id: nat)
    ensures Answer(db, TeachesPrompt, id) == [AssistantMessage(id, IntroText)]
  {
    TeachesPromptLower();
    TeachesInMathematics(db, TeachesPrompt, id);
  }

  /** A known department is not mentioned when one of its letters,
      lower-cased, does not occur in the lower-cased message. */
  lemma LetterMissing(message: string, j: nat, k: nat, c: char)
    requires j < |KnownDepartments| && k < |KnownDepartments[j]|
    requires LowerChar(KnownDepartments[j][k]) == c && c !in Lower(message)
    ensures !Mentions(message, KnownDepartments[j])
  {
    NoChar(Lower(message), Lower(KnownDepartments[j]), k);
  }

  /** Every known department name has one of the letters m, b, n, p or h,
      so a message without any of them names no department. */
  lemma NoDepartmentLetters(message: string)
    requires var l := Lower(message);
      'm' !in l && 'b' !in l && 'n' !in l && 'p' !in l && 'h' !in l
    ensures DepartmentIn(message) == ""
  {
    FirstDepartmentsMissing(message);
    LastDepartmentsMissing(message);
    DepartmentInSpec(message);
  }

  lemma FirstDepartmentsMissing(message: string)
    requires var l := Lower(message); 'm' !in l && 'b' !in l && 'n' !in l
    ensures forall j :: 0 <= j < 4 ==> !Mentions(message, KnownDepartments[j])
  {
    LetterMissing(message, 0, 2, 'm');
    LetterMissing(message, 1, 0, 'm');
    LetterMissing(message, 2, 0, 'b');
    LetterMissing(message, 3, 1, 'n');
  }

  lemma LastDepartmentsMissing(message: string)
    requires var l := Lower(message); 'p' !in l && 'n' !in l && 'h' !in l
    ensures forall j :: 4 <= j < |KnownDepartments| ==> !Mentions(message, KnownDepartments[j])
  {
    LetterMissing(message, 4, 0, 'p');
    LetterMissing(message, 5, 1, 'n');
    LetterMissing(message, 6, 0, 'h');
  }

  /** "List all courses" names no department, so the whole catalogue is
      listed. */
  lemma CoursesPromptNoDepartment(message: string)
    requires Lower(message) == CoursesLower
    ensures DepartmentIn(message) == ""
  {
    var l := CoursesLower;
    assert 'm' !in l && 'b' !in l && 'n' !in l && 'p' !in l && 'h' !in l;
    NoDepartmentLetters(message);
  }

  /** A course's catalogue line names its code. */
  lemma CourseLineNamesCode(c: Course)
    ensures Contains(CourseLine(c), c.code)
  {
    var rest := "** " + c.title + " \U{2014} " + c.department +
      " (" + NatToString(c.credits) + " credits, " + NatToString(c.students) + " students)";
    assert CourseLine(c) == "\U{2022} **" + c.code + rest;
    ContainsPart("\U{2022} **", c.code, rest);
  }

  /** A listing of the whole catalogue has the line of its first course. */
  lemma CatalogueShowsFirst(db: Campus)
    requires db.courses != []
    ensures var result := ListCourses(db, "");
      && result.data.courses == db.courses
      && Contains(Format(ListCoursesName, result), CourseLine(db.courses[0]))
  {
    var result := ListCourses(db, "");
    var lines := CourseLines(Capped(result.data.courses));
    assert |lines| > 0 && lines[0] == CourseLine(db.courses[0]);
    var head := CourseIcon + " " + result.summary + "\n\n";
    var tail := if |lines| == 1 then "" else "\n" + Join(lines[1..], "\n");
    assert Format(ListCoursesName, result) == head + lines[0] + tail;
    ContainsPart(head, lines[0], tail);
  }

  /** "List all courses", in any capitalisation, calls `listCourses` with
      no department, and the reply lists the whole catalogue, the first
      course's line included. */
  lemma ListAllCourses(db: Campus, message: string, id: nat)
    requires Lower(message) == CoursesLower && db.courses != []
    ensures |Answer(db, message, id)| == 2
    ensures var call := Answer(db, message, id)[0].toolCall;
      && call.Some? && call.value.name == ListCoursesName
      && call.value.params == map["department" := ""]
      && call.value.result.data.courses == db.courses
    ensures Contains(Answer(db, message, id)[1].content, CourseLine(db.courses[0]))
  {
    CoursesPromptIsCourseListing(message);
    CoursesPromptNoDepartment(message);
    CourseListingReply(db, message, id);
    CatalogueShowsFirst(db);
  }

  /** On Contoso University's catalogue the suggested wording gets a reply
      naming CS101. */
  lemma ListAllCoursesPrompt(id: nat)
    ensures var r := Answer(University, CoursesPrompt, id);
      |r| == 2 && Contains(r[1].content, "CS101")
  {
    CoursesPromptLower();
    ListAllCourses(University, CoursesPrompt, id);
    CourseLineNamesCode(Courses[0]);
    ContainsTrans(Answer(University, CoursesPrompt, id)[1].content, CourseLine(Courses[0]), "CS101");
  }
}
