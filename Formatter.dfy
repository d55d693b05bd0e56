/** `formatToolResponse` (src/copilot/client.ts): how the assistant turns a
    tool's result into the text of its reply. */
module Formatter {
  import opened Seqs
  import opened Text
  import opened Data
  import opened Tools

  /** At most this many records are rendered; the rest are dropped silently. */
  const MaxItems: nat := 10

  const ErrorPrefix: string := "Sorry, I encountered an error: "
  const NoResultsPrefix: string := "No results found. "

  const StatsIcon: string := "\U{1F4CA}"
  const StudentIcon: string := "\U{1F393}"
  const CourseIcon: string := "\U{1F4DA}"
  const TeacherIcon: string := "\U{1F468}\U{200D}\U{1F3EB}"

  /** The first `MaxItems` elements (`slice(0, 10)`). */
  function Capped<T>(xs: seq<T>): (r: seq<T>)
    ensures |r| == Min(MaxItems, |xs|) && r == xs[..|r|]
  {
    xs[..Min(MaxItems, |xs|)]
  }

  function StudentLine(s: Student): string {
    "\U{2022} **" + s.name + "** \U{2014} " + s.major + " (" + s.email + "), " + NatToString(s.courses) + " courses"
  }

  function CourseLine(c: Course): string {
    "\U{2022} **" + c.code + "** " + c.title + " \U{2014} " + c.department +
    " (" + NatToString(c.credits) + " credits, " + NatToString(c.students) + " students)"
  }

  function TeacherLine(t: Teacher): string {
    "\U{2022} **" + t.name + "** \U{2014} " + t.department + ", " + t.role + " (" + t.office + ")"
  }

  function StudentLines(xs: seq<Student>): (r: seq<string>)
    ensures |r| == |xs| && forall i :: 0 <= i < |xs| ==> r[i] == StudentLine(xs[i])
  {
    seq(|xs|, i requires 0 <= i < |xs| => StudentLine(xs[i]))
  }

  function CourseLines(xs: seq<Course>): (r: seq<string>)
    ensures |r| == |xs| && forall i :: 0 <= i < |xs| ==> r[i] == CourseLine(xs[i])
  {
    seq(|xs|, i requires 0 <= i < |xs| => CourseLine(xs[i]))
  }

  function TeacherLines(xs: seq<Teacher>): (r: seq<string>)
    ensures |r| == |xs| && forall i :: 0 <= i < |xs| ==> r[i] == TeacherLine(xs[i])
  {
    seq(|xs|, i requires 0 <= i < |xs| => TeacherLine(xs[i]))
  }

  /** A list reply: the icon and summary, a blank line, then one line per
      record. */
  function ListText(icon: string, summary: string, lines: seq<string>): string {
    icon + " " + summary + "\n\n" + Join(lines, "\n")
  }

  const StatsHeader: string := StatsIcon + " **University Overview**"

  /** The statistics reply: a header, a blank line, then the five figures in
      a fixed order. */
  function StatsLines(st: Stats): seq<string> {
    [ StatsHeader,
      "",
      "\U{2022} **Students**: " + NatToString(st.totalStudents),
      "\U{2022} **Courses**: " + NatToString(st.totalCourses),
      "\U{2022} **Faculty**: " + NatToString(st.totalFaculty),
      "\U{2022} **Total Enrollments**: " + NatToString(st.totalEnrollments),
      "\U{2022} **Departments**: " + Join(st.departments, ", ") ]
  }

  /** The results `formatToolResponse` can meet without reading a field the
      record does not have: a statistics call carries statistics (or nothing),
      and a non-empty list under a list tool's name holds that tool's
      records. The handlers only ever produce such results. */
  predicate Renderable(toolName: string, result: ToolResult) {
    result.success ==>
      && (toolName == StatsName ==> result.data.StatsRecord? || result.data.NoData?)
      && (toolName == SearchStudentsName && result.data.IsList() && result.data.Count() > 0 ==> result.data.StudentList?)
      && (toolName == ListCoursesName && result.data.IsList() && result.data.Count() > 0 ==> result.data.CourseList?)
      && (toolName == TeacherInfoName && result.data.IsList() && result.data.Count() > 0 ==> result.data.TeacherList?)
  }

  /** `formatToolResponse`: the first case that applies decides: failure,
      statistics, an empty list, a list under its own tool's name, and
      otherwise the bare summary. */
  function Format(toolName: string, result: ToolResult): (r: string)
    requires Renderable(toolName, result)
    ensures !result.success ==> r == ErrorPrefix + result.summary
    ensures result.success && result.data.IsList() && result.data.Count() == 0 ==> r == NoResultsPrefix + result.summary
    ensures result.success && !result.data.IsList() && !(toolName == StatsName && result.data.StatsRecord?) ==>
      r == result.summary
  {
    if !result.success then ErrorPrefix + result.summary
    else match result.data
      case StatsRecord(st) =>
        if toolName == StatsName then Join(StatsLines(st), "\n") else result.summary
      case NoData => result.summary
      case StudentList(xs) =>
        if xs == [] then NoResultsPrefix + result.summary
        else if toolName == SearchStudentsName then ListText(StudentIcon, result.summary, StudentLines(Capped(xs)))
        else result.summary
      case CourseList(xs) =>
        if xs == [] then NoResultsPrefix + result.summary
        else if toolName == ListCoursesName then ListText(CourseIcon, result.summary, CourseLines(Capped(xs)))
        else result.summary
      case TeacherList(xs) =>
        if xs == [] then NoResultsPrefix + result.summary
        else if toolName == TeacherInfoName then ListText(TeacherIcon, result.summary, TeacherLines(Capped(xs)))
        else result.summary
  }

  /** What every handler returns can be rendered under its own name. */
  lemma SearchStudentsRenderable(db: Campus, query: string)
    ensures Renderable(SearchStudentsName, SearchStudents(db, query))
  {
  }

  lemma ListCoursesRenderable(db: Campus, department: string)
    ensures Renderable(ListCoursesName, ListCourses(db, department))
  {
  }

  lemma GetTeacherInfoRenderable(db: Campus, query: string)
    ensures Renderable(TeacherInfoName, GetTeacherInfo(db, query))
  {
  }

  lemma GetUniversityStatsRenderable(db: Campus)
    ensures Renderable(StatsName, GetUniversityStats(db))
  {
  }

  // ---------------------------------------------------------------------
  // The rendered text, line by line
  // ---------------------------------------------------------------------

  predicate OneLine(s: string) { '\n' !in s }

  lemma {:induction false} JoinOneLine(ws: seq<string>, sep: string)
    requires OneLine(sep) && forall k :: 0 <= k < |ws| ==> OneLine(ws[k])
    ensures OneLine(Join(ws, sep))
  {
    if |ws| > 1 {
      JoinOneLine(ws[1..], sep);
      assert Join(ws, sep) == ws[0] + sep + Join(ws[1..], sep);
    }
  }

  lemma NatOneLine(n: nat)
    ensures OneLine(NatToString(n))
  {
  }

  /** A list reply's lines are its header, a blank line and the record
      lines, whenever none of those contains a line break. */
  lemma {:induction false} ListTextLines(icon: string, summary: string, lines: seq<string>)
    requires |lines| >= 1 && OneLine(icon) && OneLine(summary)
    requires forall k :: 0 <= k < |lines| ==> OneLine(lines[k])
    ensures SplitOn(ListText(icon, summary, lines), '\n') == [icon + " " + summary, ""] + lines
  {
    var all := [icon + " " + summary, ""] + lines;
    assert all[1..] == [""] + lines;
    assert ([""] + lines)[1..] == lines;
    JoinCons("", lines, "\n");
    JoinCons(icon + " " + summary, [""] + lines, "\n");
    assert Join(all, "\n") == ListText(icon, summary, lines);
    SplitOnJoin(all, '\n');
  }

  lemma StudentLineOneLine(s: Student)
    requires OneLine(s.name) && OneLine(s.major) && OneLine(s.email)
    ensures OneLine(StudentLine(s))
  {
    NatOneLine(s.courses);
  }

  /** A student search reply has its header, a blank line and exactly one
      line for each of the first ten students found, in order; the rest are
      dropped without notice. */
  lemma StudentReplyCapped(result: ToolResult)
    requires result.success && result.data.StudentList? && result.data.students != []
    requires OneLine(result.summary)
    requires forall k :: 0 <= k < |result.data.students| ==>
      OneLine(result.data.students[k].name) && OneLine(result.data.students[k].major) &&
      OneLine(result.data.students[k].email)
    ensures var lines := SplitOn(Format(SearchStudentsName, result), '\n');
      && |lines| == 2 + Min(MaxItems, |result.data.students|)
      && lines[0] == StudentIcon + " " + result.summary && lines[1] == ""
      && forall k :: 0 <= k < |lines| - 2 ==> lines[k + 2] == StudentLine(result.data.students[k])
  {
    var items := StudentLines(Capped(result.data.students));
    forall k | 0 <= k < |items|
      ensures OneLine(items[k])
    {
      StudentLineOneLine(result.data.students[k]);
    }
    ListTextLines(StudentIcon, result.summary, items);
  }

  lemma CourseLineOneLine(c: Course)
    requires OneLine(c.code) && OneLine(c.title) && OneLine(c.department)
    ensures OneLine(CourseLine(c))
  {
    NatOneLine(c.credits);
    NatOneLine(c.students);
  }

  /** A course listing reply has one line for each of the first ten
      courses, in order. */
  lemma CourseReplyCapped(result: ToolResult)
    requires result.success && result.data.CourseList? && result.data.courses != []
    requires OneLine(result.summary)
    requires forall k :: 0 <= k < |result.data.courses| ==>
      OneLine(result.data.courses[k].code) && OneLine(result.data.courses[k].title) &&
      OneLine(result.data.courses[k].department)
    ensures var lines := SplitOn(Format(ListCoursesName, result), '\n');
      && |lines| == 2 + Min(MaxItems, |result.data.courses|)
      && lines[0] == CourseIcon + " " + result.summary && lines[1] == ""
      && forall k :: 0 <= k < |lines| - 2 ==> lines[k + 2] == CourseLine(result.data.courses[k])
  {
    var items := CourseLines(Capped(result.data.courses));
    forall k | 0 <= k < |items|
      ensures OneLine(items[k])
    {
      CourseLineOneLine(result.data.courses[k]);
    }
    ListTextLines(CourseIcon, result.summary, items);
  }

  /** A faculty reply has one line for each of the first ten teachers, in
      order. */
  lemma TeacherReplyCapped(result: ToolResult)
    requires result.success && result.data.TeacherList? && result.data.teachers != []
    requires OneLine(result.summary)
    requires forall k :: 0 <= k < |result.data.teachers| ==>
      OneLine(result.data.teachers[k].name) && OneLine(result.data.teachers[k].department) &&
      OneLine(result.data.teachers[k].role) && OneLine(result.data.teachers[k].office)
    ensures var lines := SplitOn(Format(TeacherInfoName, result), '\n');
      && |lines| == 2 + Min(MaxItems, |result.data.teachers|)
      && lines[0] == TeacherIcon + " " + result.summary && lines[1] == ""
      && forall k :: 0 <= k < |lines| - 2 ==> lines[k + 2] == TeacherLine(result.data.teachers[k])
  {
    var items := TeacherLines(Capped(result.data.teachers));
    forall k | 0 <= k < |items|
      ensures OneLine(items[k])
    {
      var t := result.data.teachers[k];
      assert items[k] == "\U{2022} **" + t.name + "** \U{2014} " + t.department + ", " + t.role + " (" + t.office + ")";
    }
    ListTextLines(TeacherIcon, result.summary, items);
  }

  /** The statistics reply is the header, a blank line and the five
      figures, in that order, one per line. */
  lemma StatsReplyLines(result: ToolResult)
    requires result.success && result.data.StatsRecord?
    requires forall k :: 0 <= k < |result.data.stats.departments| ==> OneLine(result.data.stats.departments[k])
    ensures SplitOn(Format(StatsName, result), '\n') == StatsLines(result.data.stats)
  {
    var st := result.data.stats;
    var ls := StatsLines(st);
    NatOneLine(st.totalStudents);
    NatOneLine(st.totalCourses);
    NatOneLine(st.totalFaculty);
    NatOneLine(st.totalEnrollments);
    JoinOneLine(st.departments, ", ");
    forall k | 0 <= k < |ls|
      ensures '\n' !in ls[k]
    {
    }
    SplitOnJoin(ls, '\n');
  }
}
