/** The tool registry (src/copilot/tools.ts): four read-only query handlers
    over the constant datasets, and `invokeTool`, which looks a tool up by
    name and reports an unknown name as a failed result rather than a fault. */
module Tools {
  import opened Seqs
  import opened Text
  import opened Data

  const SearchStudentsName: string := "searchStudents"
  const ListCoursesName: string := "listCourses"
  const TeacherInfoName: string := "getTeacherInfo"
  const StatsName: string := "getUniversityStats"

  /** The aggregate that `getUniversityStats` returns. */
  datatype Stats = Stats(
    totalStudents: nat,
    totalCourses: nat,
    totalFaculty: nat,
    totalEnrollments: nat,
    departments: seq<string>)

  /** A tool's result data: one case per shape a handler returns, and none
      for the failed lookup of an unknown tool. */
  datatype Payload =
    | StudentList(students: seq<Student>)
    | CourseList(courses: seq<Course>)
    | TeacherList(teachers: seq<Teacher>)
    | StatsRecord(stats: Stats)
    | NoData
  {
    predicate IsList() { StudentList? || CourseList? || TeacherList? }

    function Count(): nat
      requires IsList()
    {
      match this
      case StudentList(xs) => |xs|
      case CourseList(xs) => |xs|
      case TeacherList(xs) => |xs|
    }
  }

  datatype ToolResult = ToolResult(success: bool, data: Payload, summary: string)

  /** A handler's named string arguments (`Record<string, string>`). */
  type Params = map<string, string>

  datatype ParamSpec = ParamSpec(name: string, kind: string, description: string)

  /** Which of the four handlers a registry entry runs. */
  datatype Handler = SearchStudentsHandler | ListCoursesHandler | TeacherInfoHandler | StatsHandler
  {
    /** The handlers that destructure `query` and lower-case it. */
    predicate NeedsQuery() { SearchStudentsHandler? || TeacherInfoHandler? }
  }

  datatype ToolDefinition = ToolDefinition(
    name: string,
    description: string,
    parameters: seq<ParamSpec>,
    handler: Handler)

  /** `campusTools`, in registration order. */
  const CampusTools: seq<ToolDefinition> := [
    ToolDefinition(SearchStudentsName,
      "Search for students by name, major, or email. Returns matching student records.",
      [ParamSpec("query", "string", "Search term to match against student name, major, or email")],
      SearchStudentsHandler),
    ToolDefinition(ListCoursesName,
      "List all available courses, optionally filtered by department.",
      [ParamSpec("department", "string", "Optional department name to filter by (e.g., \"Computer Science\")")],
      ListCoursesHandler),
    ToolDefinition(TeacherInfoName,
      "Get information about faculty members by name or department.",
      [ParamSpec("query", "string", "Teacher name or department to search for")],
      TeacherInfoHandler),
    ToolDefinition(StatsName,
      "Get overall university statistics: total students, courses, faculty, and enrollments.",
      [],
      StatsHandler)
  ]

  /** Tool names are the registry's keys: no two entries share one. */
  lemma ToolNamesUnique()
    ensures forall i, j :: 0 <= i < j < |CampusTools| ==> CampusTools[i].name != CampusTools[j].name
  {
  }

  // ---------------------------------------------------------------------
  // The handlers
  // ---------------------------------------------------------------------

  /** A student matches when its lower-cased name, major or email contains
      the lower-cased query. */
  predicate StudentMatches(query: string, s: Student) {
    var q := Lower(query);
    Contains(Lower(s.name), q) || Contains(Lower(s.major), q) || Contains(Lower(s.email), q)
  }

  function StudentFilter(query: string): Student -> bool {
    s => StudentMatches(query, s)
  }

  function SearchStudents(db: Campus, query: string): (r: ToolResult)
    ensures r.success && r.data.StudentList?
    ensures forall k :: 0 <= k < |r.data.students| ==> StudentMatches(query, r.data.students[k])
    ensures r.summary == "Found " + NatToString(|r.data.students|) + " student(s) matching \"" + query + "\""
  {
    var results := Filter(StudentFilter(query), db.students);
    ToolResult(true, StudentList(results),
      "Found " + NatToString(|results|) + " student(s) matching \"" + query + "\"")
  }

  /** The students found are the matching ones in dataset order: `idx` gives
      their increasing positions in the student records, and every matching position
      is among them. */
  lemma SearchStudentsInOrder(db: Campus, query: string) returns (idx: seq<nat>)
    ensures SelectedBy(SearchStudents(db, query).data.students, db.students, StudentFilter(query), idx)
  {
    idx := FilterSelects(StudentFilter(query), db.students);
  }

  /** A course is in the department filter when its lower-cased department
      contains the lower-cased filter. */
  predicate CourseInDepartment(department: string, c: Course) {
    Contains(Lower(c.department), Lower(department))
  }

  function CourseFilter(department: string): Course -> bool {
    c => CourseInDepartment(department, c)
  }

  /** An empty department means no filter (the source tests it for
      truthiness). */
  function ListCourses(db: Campus, department: string): (r: ToolResult)
    ensures r.success && r.data.CourseList?
    ensures department == "" ==>
      && r.data.courses == db.courses
      && r.summary == "Listing all " + NatToString(|db.courses|) + " courses"
    ensures department != "" ==>
      && (forall k :: 0 <= k < |r.data.courses| ==> CourseInDepartment(department, r.data.courses[k]))
      && r.summary == "Found " + NatToString(|r.data.courses|) + " course(s) in \"" + department + "\""
  {
    if department == "" then
      ToolResult(true, CourseList(db.courses), "Listing all " + NatToString(|db.courses|) + " courses")
    else
      var results := Filter(CourseFilter(department), db.courses);
      ToolResult(true, CourseList(results),
        "Found " + NatToString(|results|) + " course(s) in \"" + department + "\"")
  }

  /** With a filter, the courses listed are the matching ones in dataset
      order. */
  lemma ListCoursesInOrder(db: Campus, department: string) returns (idx: seq<nat>)
    requires department != ""
    ensures SelectedBy(ListCourses(db, department).data.courses, db.courses, CourseFilter(department), idx)
  {
    idx := FilterSelects(CourseFilter(department), db.courses);
  }

  /** A teacher matches when its lower-cased name or department contains the
      lower-cased query. */
  predicate TeacherMatches(query: string, t: Teacher) {
    var q := Lower(query);
    Contains(Lower(t.name), q) || Contains(Lower(t.department), q)
  }

  function TeacherFilter(query: string): Teacher -> bool {
    t => TeacherMatches(query, t)
  }

  function GetTeacherInfo(db: Campus, query: string): (r: ToolResult)
    ensures r.success && r.data.TeacherList?
    ensures forall k :: 0 <= k < |r.data.teachers| ==> TeacherMatches(query, r.data.teachers[k])
    ensures r.summary == "Found " + NatToString(|r.data.teachers|) + " faculty member(s) matching \"" + query + "\""
  {
    var results := Filter(TeacherFilter(query), db.teachers);
    ToolResult(true, TeacherList(results),
      "Found " + NatToString(|results|) + " faculty member(s) matching \"" + query + "\"")
  }

  lemma GetTeacherInfoInOrder(db: Campus, query: string) returns (idx: seq<nat>)
    ensures SelectedBy(GetTeacherInfo(db, query).data.teachers, db.teachers, TeacherFilter(query), idx)
  {
    idx := FilterSelects(TeacherFilter(query), db.teachers);
  }

  function EnrolledCourses(s: Student): nat { s.courses }

  /** `courses.map(c => c.department)`. */
  function CourseDepartments(db: Campus): (r: seq<string>)
    ensures |r| == |db.courses| && forall i :: 0 <= i < |db.courses| ==> r[i] == db.courses[i].department
  {
    seq(|db.courses|, i requires 0 <= i < |db.courses| => db.courses[i].department)
  }

  /** The enrollment total is the left fold of `reduce`, which equals the
      sum of every student's course count; the departments are those of the
      courses, each once, in order of first appearance. */
  function GetUniversityStats(db: Campus): (r: ToolResult)
    ensures r.success && r.data.StatsRecord?
    ensures r.data.stats.totalStudents == |db.students|
    ensures r.data.stats.totalCourses == |db.courses|
    ensures r.data.stats.totalFaculty == |db.teachers|
    ensures r.data.stats.totalEnrollments == Sum(EnrolledCourses, db.students)
    ensures Distinct(r.data.stats.departments)
    ensures forall k :: 0 <= k < |r.data.stats.departments| ==> r.data.stats.departments[k] in CourseDepartments(db)
    ensures forall i :: 0 <= i < |db.courses| ==> db.courses[i].department in r.data.stats.departments
    ensures forall k, l :: 0 <= k < l < |r.data.stats.departments| ==>
      IndexOf(CourseDepartments(db), r.data.stats.departments[k]) < IndexOf(CourseDepartments(db), r.data.stats.departments[l])
    ensures r.summary == "University has " + NatToString(|db.students|) + " students, " +
      NatToString(|db.courses|) + " courses, " + NatToString(|db.teachers|) + " faculty"
  {
    var total := FoldSum(EnrolledCourses, 0, db.students);
    FoldSumIsSum(EnrolledCourses, 0, db.students);
    var departments := Dedup(CourseDepartments(db));
    DedupSpec(CourseDepartments(db));
    var stats := Stats(|db.students|, |db.courses|, |db.teachers|, total, departments);
    ToolResult(true, StatsRecord(stats),
      "University has " + NatToString(stats.totalStudents) + " students, " +
      NatToString(stats.totalCourses) + " courses, " + NatToString(stats.totalFaculty) + " faculty")
  }

  // ---------------------------------------------------------------------
  // invokeTool
  // ---------------------------------------------------------------------

  predicate Registered(name: string) {
    exists i :: 0 <= i < |CampusTools| && CampusTools[i].name == name
  }

  /** The arguments a call under `name` must carry: the handlers of
      `searchStudents` and `getTeacherInfo` lower-case their `query`, which
      throws when it is missing. */
  predicate ParamsSupplied(name: string, params: Params) {
    (name == SearchStudentsName || name == TeacherInfoName) ==> "query" in params
  }

  /** Runs one handler on its arguments; a missing `department` is treated
      like the empty one, as both are falsy. */
  function Handle(db: Campus, h: Handler, params: Params): ToolResult
    requires h.NeedsQuery() ==> "query" in params
  {
    match h
    case SearchStudentsHandler => SearchStudents(db, params["query"])
    case ListCoursesHandler => ListCourses(db, if "department" in params then params["department"] else "")
    case TeacherInfoHandler => GetTeacherInfo(db, params["query"])
    case StatsHandler => GetUniversityStats(db)
  }

  /** Every handler succeeds and returns data: a list of records, except
      the statistics handler, which returns the statistics record. */
  lemma HandleSucceeds(db: Campus, h: Handler, params: Params)
    requires h.NeedsQuery() ==> "query" in params
    ensures Handle(db, h, params).success && Handle(db, h, params).data != NoData
    ensures Handle(db, h, params).data.IsList() <==> h != StatsHandler
  {
  }

  /** `invokeTool`: an unknown name gives a failed result naming it; a
      registered name gives its handler's result, which always succeeds. */
  function InvokeTool(db: Campus, name: string, params: Params): (r: ToolResult)
    requires ParamsSupplied(name, params)
    ensures !Registered(name) ==> r == ToolResult(false, NoData, "Unknown tool: " + name)
    ensures forall i :: 0 <= i < |CampusTools| && CampusTools[i].name == name ==>
      r == Handle(db, CampusTools[i].handler, params)
    ensures r.success <==> Registered(name)
  {
    ToolNamesUnique();
    match Find((t: ToolDefinition) => t.name == name, CampusTools)
    case None => ToolResult(false, NoData, "Unknown tool: " + name)
    case Some(t) => Handle(db, t.handler, params)
  }

  /** The four tool names are registered. */
  lemma ToolNamesRegistered()
    ensures Registered(SearchStudentsName) && Registered(ListCoursesName)
    ensures Registered(TeacherInfoName) && Registered(StatsName)
  {
    assert CampusTools[0].name == SearchStudentsName;
    assert CampusTools[1].name == ListCoursesName;
    assert CampusTools[2].name == TeacherInfoName;
    assert CampusTools[3].name == StatsName;
  }

  /** What each registered name runs. */
  lemma InvokeByName(db: Campus, params: Params)
    ensures "query" in params ==> InvokeTool(db, SearchStudentsName, params) == SearchStudents(db, params["query"])
    ensures InvokeTool(db, ListCoursesName, params) ==
      ListCourses(db, if "department" in params then params["department"] else "")
    ensures "query" in params ==> InvokeTool(db, TeacherInfoName, params) == GetTeacherInfo(db, params["query"])
    ensures InvokeTool(db, StatsName, params) == GetUniversityStats(db)
  {
    if "query" in params {
      InvokeSearch(db, params);
      InvokeTeacher(db, params);
    }
    InvokeList(db, params);
    InvokeStats(db, params);
  }

  lemma InvokeSearch(db: Campus, params: Params)
    requires "query" in params
    ensures InvokeTool(db, SearchStudentsName, params) == SearchStudents(db, params["query"])
  {
    assert CampusTools[0].name == SearchStudentsName;
  }

  lemma InvokeList(db: Campus, params: Params)
    ensures InvokeTool(db, ListCoursesName, params) ==
      ListCourses(db, if "department" in params then params["department"] else "")
  {
    assert CampusTools[1].name == ListCoursesName;
  }

  lemma InvokeTeacher(db: Campus, params: Params)
    requires "query" in params
    ensures InvokeTool(db, TeacherInfoName, params) == GetTeacherInfo(db, params["query"])
  {
    assert CampusTools[2].name == TeacherInfoName;
  }

  lemma InvokeStats(db: Campus, params: Params)
    ensures InvokeTool(db, StatsName, params) == GetUniversityStats(db)
  {
    assert CampusTools[3].name == StatsName;
  }
}
