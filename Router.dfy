/** How `sendMessage` (src/copilot/client.ts) reads a message: the ordered
    keyword rules that pick what to do, and the two extractors that pull a
    tool's argument out of the text. */
module Router {
  import opened Seqs
  import opened Text
  import opened Data
  import opened Tools

  // ---------------------------------------------------------------------
  // Intent classification
  // ---------------------------------------------------------------------

  /** What a message asks for: one of the four tools, the help text, or,
      when nothing applies, the introduction. */
  datatype Intent = StudentSearch | CourseListing | TeacherLookup | Statistics | Help | Intro

  predicate AsksStudents(lower: string) {
    Contains(lower, "student") && (Contains(lower, "search") || Contains(lower, "find") || Contains(lower, "who"))
  }

  predicate AsksCourses(lower: string) {
    Contains(lower, "course") && (Contains(lower, "list") || Contains(lower, "show") || Contains(lower, "what"))
  }

  predicate AsksTeachers(lower: string) {
    Contains(lower, "teacher") || Contains(lower, "faculty") || Contains(lower, "professor")
  }

  predicate AsksStatistics(lower: string) {
    Contains(lower, "stat") || Contains(lower, "overview") || Contains(lower, "how many") || Contains(lower, "total")
  }

  predicate AsksHelp(lower: string) {
    Contains(lower, "help") || Contains(lower, "what can you")
  }

  /** The `if`/`else if` chain of `sendMessage`, applied to the lower-cased
      message. */
  function Classify(message: string): Intent {
    var lower := Lower(message);
    if AsksStudents(lower) then StudentSearch
    else if AsksCourses(lower) then CourseListing
    else if AsksTeachers(lower) then TeacherLookup
    else if AsksStatistics(lower) then Statistics
    else if AsksHelp(lower) then Help
    else Intro
  }

  /** A rule in conjunctive form: it fires when every clause has at least
      one of its keywords in the text. */
  datatype Rule = Rule(clauses: seq<seq<string>>, intent: Intent)

  /** The routing rules as data, highest priority first. */
  const Rules: seq<Rule> := [
    Rule([["student"], ["search", "find", "who"]], StudentSearch),
    Rule([["course"], ["list", "show", "what"]], CourseListing),
    Rule([["teacher", "faculty", "professor"]], TeacherLookup),
    Rule([["stat", "overview", "how many", "total"]], Statistics),
    Rule([["help", "what can you"]], Help)
  ]

  predicate AnyIn(lower: string, keywords: seq<string>) {
    exists k :: 0 <= k < |keywords| && Contains(lower, keywords[k])
  }

  lemma AnyInAt(lower: string, keywords: seq<string>, k: nat)
    requires k < |keywords| && Contains(lower, keywords[k])
    ensures AnyIn(lower, keywords)
  {
  }

  predicate Fires(rule: Rule, lower: string) {
    forall c :: 0 <= c < |rule.clauses| ==> AnyIn(lower, rule.clauses[c])
  }

  function FiresOn(lower: string): Rule -> bool {
    r => Fires(r, lower)
  }

  /** The reference router: the intent of the first rule that fires on the
      lower-cased message, or the introduction when none does. */
  function ByRules(message: string): Intent {
    var i := FirstIndexWhere(FiresOn(Lower(message)), Rules);
    if i < |Rules| then Rules[i].intent else Intro
  }

  lemma StudentRule(lower: string)
    ensures Fires(Rules[0], lower) <==> AsksStudents(lower)
  {
    var c := Rules[0].clauses;
    assert c[0] == ["student"] && c[1] == ["search", "find", "who"];
    if AsksStudents(lower) {
      AnyInAt(lower, c[0], 0);
      if Contains(lower, "search") { AnyInAt(lower, c[1], 0); }
      else if Contains(lower, "find") { AnyInAt(lower, c[1], 1); }
      else { AnyInAt(lower, c[1], 2); }
    }
  }

  lemma CourseRule(lower: string)
    ensures Fires(Rules[1], lower) <==> AsksCourses(lower)
  {
    var c := Rules[1].clauses;
    assert c[0] == ["course"] && c[1] == ["list", "show", "what"];
    if AsksCourses(lower) {
      AnyInAt(lower, c[0], 0);
      if Contains(lower, "list") { AnyInAt(lower, c[1], 0); }
      else if Contains(lower, "show") { AnyInAt(lower, c[1], 1); }
      else { AnyInAt(lower, c[1], 2); }
    }
  }

  lemma TeacherRule(lower: string)
    ensures Fires(Rules[2], lower) <==> AsksTeachers(lower)
  {
    var c := Rules[2].clauses;
    assert c[0] == ["teacher", "faculty", "professor"];
    if Contains(lower, "teacher") { AnyInAt(lower, c[0], 0); }
    else if Contains(lower, "faculty") { AnyInAt(lower, c[0], 1); }
    else if Contains(lower, "professor") { AnyInAt(lower, c[0], 2); }
  }

  lemma StatisticsRule(lower: string)
    ensures Fires(Rules[3], lower) <==> AsksStatistics(lower)
  {
    var c := Rules[3].clauses;
    assert c[0] == ["stat", "overview", "how many", "total"];
    if Contains(lower, "stat") { AnyInAt(lower, c[0], 0); }
    else if Contains(lower, "overview") { AnyInAt(lower, c[0], 1); }
    else if Contains(lower, "how many") { AnyInAt(lower, c[0], 2); }
    else if Contains(lower, "total") { AnyInAt(lower, c[0], 3); }
  }

  lemma HelpRule(lower: string)
    ensures Fires(Rules[4], lower) <==> AsksHelp(lower)
  {
    var c := Rules[4].clauses;
    assert c[0] == ["help", "what can you"];
    if Contains(lower, "help") { AnyInAt(lower, c[0], 0); }
    else if Contains(lower, "what can you") { AnyInAt(lower, c[0], 1); }
  }

  /** The keyword chain is first-match-wins over the rule table: the message
      gets the intent of the highest-priority rule that fires. */
  lemma ClassifyFollowsRules(message: string)
    ensures Classify(message) == ByRules(message)
  {
    var lower := Lower(message);
    StudentRule(lower);
    CourseRule(lower);
    TeacherRule(lower);
    StatisticsRule(lower);
    HelpRule(lower);
    var f := FiresOn(lower);
    var i := FirstIndexWhere(f, Rules);
    if i < |Rules| {
      assert f(Rules[i]);
    }
  }

  /** A message that mentions courses and a listing verb is routed to
      `listCourses` only if it is not already a student search: the student
      rule is checked first. */
  lemma CourseListPriority(message: string)
    requires Contains(Lower(message), "course") && Contains(Lower(message), "list")
    ensures Classify(message) == CourseListing <==> !AsksStudents(Lower(message))
  {
  }

  // ---------------------------------------------------------------------
  // extractQuery
  // ---------------------------------------------------------------------

  const StudentStopWords: seq<string> := ["student", "search", "find", "who", "named", "called", "in", "major"]
  const TeacherStopWords: seq<string> := ["teacher", "faculty", "professor", "find", "who", "about", "info"]

  /** A token is dropped when its lower-cased form, with `?.,!` removed, is
      exactly one of the stop words. */
  predicate IsStopWord(token: string, stopWords: seq<string>) {
    StripPunct(Lower(token)) in stopWords
  }

  function KeepToken(stopWords: seq<string>): string -> bool {
    w => !IsStopWord(w, stopWords)
  }

  /** The tokens of `message` that are not stop words, in message order. */
  function KeptTokens(message: string, stopWords: seq<string>): (r: seq<string>)
    ensures forall k :: 0 <= k < |r| ==> !IsStopWord(r[k], stopWords) && NoSpace(r[k])
  {
    FilterMembers(KeepToken(stopWords), Split(message));
    Filter(KeepToken(stopWords), Split(message))
  }

  /** The kept tokens are exactly the non-stop-word tokens of the message,
      in the order the message has them. */
  lemma KeptTokensInOrder(message: string, stopWords: seq<string>) returns (idx: seq<nat>)
    ensures SelectedBy(KeptTokens(message, stopWords), Split(message), KeepToken(stopWords), idx)
  {
    idx := FilterSelects(KeepToken(stopWords), Split(message));
  }

  /** The tokens `extractQuery` keeps: the last three non-stop-word tokens. */
  function QueryTokens(message: string, stopWords: seq<string>): (r: seq<string>)
    ensures |r| == Min(3, |KeptTokens(message, stopWords)|)
    ensures r == KeptTokens(message, stopWords)[|KeptTokens(message, stopWords)| - |r|..]
    ensures forall k :: 0 <= k < |r| ==> !IsStopWord(r[k], stopWords) && NoSpace(r[k])
  {
    LastN(KeptTokens(message, stopWords), 3)
  }

  /** `extractQuery`: the query tokens joined by spaces, with `?.,!` removed
      and the ends trimmed; the whole message when that leaves nothing. */
  function ExtractQuery(message: string, stopWords: seq<string>): string {
    var q := Trim(StripPunct(Join(QueryTokens(message, stopWords), " ")));
    if q == [] then message else q
  }

  /** The query is the whole message, or a non-empty, trimmed text without
      `?.,!`. */
  lemma ExtractQueryClean(message: string, stopWords: seq<string>)
    ensures var r := ExtractQuery(message, stopWords);
      r == message || (r != [] && NoPunct(r) && Trimmed(r))
  {
    TrimKeepsNoPunct(StripPunct(Join(QueryTokens(message, stopWords), " ")));
  }

  /** The words of the query: the query tokens with `?.,!` removed, less
      those that this leaves empty. */
  function QueryWords(message: string, stopWords: seq<string>): (r: seq<string>)
    ensures r == [] <==> forall k :: 0 <= k < |QueryTokens(message, stopWords)| ==> StripPunct(QueryTokens(message, stopWords)[k]) == []
  {
    var us := StripEach(QueryTokens(message, stopWords));
    AllEmpty(us);
    Filter(NonEmpty, us)
  }

  /** `extractQuery` returns the whole message exactly when no query token
      keeps a character once `?.,!` are removed; otherwise it returns the
      words of the query separated by whitespace, which splitting gives back
      one by one. */
  lemma ExtractQueryWords(message: string, stopWords: seq<string>)
    ensures QueryWords(message, stopWords) == [] ==> ExtractQuery(message, stopWords) == message
    ensures QueryWords(message, stopWords) != [] ==>
      ExtractQuery(message, stopWords) != [] && Split(ExtractQuery(message, stopWords)) == QueryWords(message, stopWords)
  {
    StrippedJoinWords(QueryTokens(message, stopWords));
  }

  /** A message made only of stop words gives the whole message back. */
  lemma AllStopWordsFallBack(message: string, stopWords: seq<string>)
    requires forall k :: 0 <= k < |Split(message)| ==> IsStopWord(Split(message)[k], stopWords)
    ensures ExtractQuery(message, stopWords) == message
  {
    var ws := Split(message);
    assert forall i :: 0 <= i < |ws| ==> !KeepToken(stopWords)(ws[i]);
    FilterNone(KeepToken(stopWords), ws);
  }

  /** When the joined query tokens need no stripping or trimming,
      `extractQuery` returns them as they are. */
  lemma CleanQuery(message: string, stopWords: seq<string>)
    requires Join(QueryTokens(message, stopWords), " ") != []
    requires NoPunct(Join(QueryTokens(message, stopWords), " "))
    requires Trimmed(Join(QueryTokens(message, stopWords), " "))
    ensures ExtractQuery(message, stopWords) == Join(QueryTokens(message, stopWords), " ")
  {
    var j := Join(QueryTokens(message, stopWords), " ");
    StripPunctClean(j);
    TrimTrimmed(j);
  }

  /** When the query tokens are non-empty and free of punctuation, the
      query is exactly those tokens: splitting it gives them back. */
  lemma QueryRoundTrip(message: string, stopWords: seq<string>)
    requires |QueryTokens(message, stopWords)| >= 1
    requires forall k :: 0 <= k < |QueryTokens(message, stopWords)| ==>
      QueryTokens(message, stopWords)[k] != [] && NoPunct(QueryTokens(message, stopWords)[k])
    ensures Split(ExtractQuery(message, stopWords)) == QueryTokens(message, stopWords)
  {
    var t := QueryTokens(message, stopWords);
    var j := Join(t, " ");
    JoinNoPunct(t, " ");
    JoinStartsWith(t, " ");
    JoinEndsWith(t, " ");
    assert j[0] == t[0][0];
    CleanQuery(message, stopWords);
    SplitJoin(t);
  }

  // ---------------------------------------------------------------------
  // extractDepartment
  // ---------------------------------------------------------------------

  /** The department names `extractDepartment` looks for, in scan order. */
  const KnownDepartments: seq<string> :=
    ["Computer Science", "Mathematics", "Business", "Engineering", "Physics", "English", "History"]

  /** Case-insensitive mention of `dept` anywhere in `message`. */
  predicate Mentions(message: string, dept: string) {
    Contains(Lower(message), Lower(dept))
  }

  function MentionedIn(message: string): string -> bool {
    d => Mentions(message, d)
  }

  lemma KnownDepartmentsDistinct()
    ensures Distinct(KnownDepartments) && "" !in KnownDepartments
  {
  }

  /** The first known department the message mentions, or "" when it
      mentions none. */
  function DepartmentIn(message: string): string {
    var i := FirstIndexWhere(MentionedIn(message), KnownDepartments);
    if i < |KnownDepartments| then KnownDepartments[i] else ""
  }

  /** The department found is "" or a known one; it is "" exactly when the
      message mentions none, and otherwise the message mentions it and none
      listed before it. */
  lemma DepartmentInSpec(message: string)
    ensures var d := DepartmentIn(message);
      && (d == "" || d in KnownDepartments)
      && (d == "" <==> forall j :: 0 <= j < |KnownDepartments| ==> !Mentions(message, KnownDepartments[j]))
      && (d != "" ==> Mentions(message, d))
      && (d != "" ==> forall j :: 0 <= j < IndexOf(KnownDepartments, d) ==> !Mentions(message, KnownDepartments[j]))
  {
    KnownDepartmentsDistinct();
    var i := FirstIndexWhere(MentionedIn(message), KnownDepartments);
    if i < |KnownDepartments| {
      assert IndexOf(KnownDepartments, KnownDepartments[i]) == i;
    }
  }

  /** `extractDepartment`: scans the names in order and returns the first
      one whose lower-cased form the lower-cased message contains, spelt as
      in the list. */
  method ExtractDepartment(message: string) returns (dept: string)
    ensures dept == DepartmentIn(message)
  {
    for i := 0 to |KnownDepartments|
      invariant forall j :: 0 <= j < i ==> !Mentions(message, KnownDepartments[j])
    {
      if Contains(Lower(message), Lower(KnownDepartments[i])) {
        FirstIndexWhereIs(MentionedIn(message), KnownDepartments, i);
        return KnownDepartments[i];
      }
    }
    FirstIndexWhereIs(MentionedIn(message), KnownDepartments, |KnownDepartments|);
    return "";
  }

  // ---------------------------------------------------------------------
  // "Find students in Computer Science"
  // ---------------------------------------------------------------------

  /** The first prompt the introduction suggests. */
  const FindStudentsPrompt: string := "Find students in Computer Science"

  /** The words of the suggested prompt. */
  const FindStudentsWords: seq<string> := ["Find", "students", "in", "Computer", "Science"]

  lemma FindStudentsPromptIsJoin()
    ensures Join(FindStudentsWords, " ") == FindStudentsPrompt
  {
    var ws := FindStudentsWords;
    var j4 := Join(ws[4..], " ");
    assert j4 == "Science";
    var j3 := Join(ws[3..], " ");
    assert j3 == "Computer" + " " + j4;
    var j2 := Join(ws[2..], " ");
    assert j2 == "in" + " " + j3;
    var j1 := Join(ws[1..], " ");
    assert j1 == "students" + " " + j2;
    assert Join(ws, " ") == "Find" + " " + j1;
  }

  lemma FindStudentsTokens()
    ensures Split(FindStudentsPrompt) == FindStudentsWords
  {
    FindStudentsPromptIsJoin();
    SplitJoin(FindStudentsWords);
  }

  /** Whether a token is a stop word depends only on its lower-cased form
      when that form has no punctuation. */
  lemma StopWordByForm(token: string, form: string, stopWords: seq<string>)
    requires Lower(token) == form && NoPunct(form)
    ensures IsStopWord(token, stopWords) <==> form in stopWords
  {
    StripPunctClean(form);
  }

  /** A token is kept when its form differs from every stop word at one
      position. */
  lemma NotStopWordAt(token: string, form: string, stopWords: seq<string>, i: nat)
    requires Lower(token) == form && NoPunct(form) && i < |form|
    requires forall k :: 0 <= k < |stopWords| ==> i >= |stopWords[k]| || stopWords[k][i] != form[i]
    ensures !IsStopWord(token, stopWords)
  {
    StopWordByForm(token, form, stopWords);
  }

  lemma FindIsStopWord()
    ensures IsStopWord("Find", StudentStopWords)
  {
    assert Lower("Find") == "find";
    StopWordByForm("Find", "find", StudentStopWords);
  }

  lemma InIsStopWord()
    ensures IsStopWord("in", StudentStopWords)
  {
    assert Lower("in") == "in";
    StopWordByForm("in", "in", StudentStopWords);
  }

  lemma StudentsIsNoStopWord()
    ensures !IsStopWord("students", StudentStopWords)
  {
    assert Lower("students") == "students";
    NotStopWordAt("students", "students", StudentStopWords, 7);
  }

  lemma ComputerIsNoStopWord()
    ensures !IsStopWord("Computer", StudentStopWords)
  {
    assert Lower("Computer") == "computer";
    NotStopWordAt("Computer", "computer", StudentStopWords, 7);
  }

  lemma ScienceIsNoStopWord()
    ensures !IsStopWord("Science", StudentStopWords)
  {
    assert Lower("Science") == "science";
    NotStopWordAt("Science", "science", StudentStopWords, 1);
  }

  lemma PromptHasStudent()
    ensures Contains(Lower(FindStudentsPrompt), "student")
  {
    FindStudentsPromptIsJoin();
    JoinContains(FindStudentsWords, " ", 1);
    assert "students"[0..7] == "student";
    ContainsAt("students", "student", 0);
    ContainsTrans(FindStudentsPrompt, "students", "student");
    LowerContains(FindStudentsPrompt, "student");
    assert Lower("student") == "student";
  }

  lemma PromptHasFind()
    ensures Contains(Lower(FindStudentsPrompt), "find")
  {
    FindStudentsPromptIsJoin();
    JoinContains(FindStudentsWords, " ", 0);
    LowerContains(FindStudentsPrompt, "Find");
    assert Lower("Find") == "find";
  }

  /** The suggested prompt is routed to `searchStudents`. */
  lemma FindStudentsIsStudentSearch()
    ensures Classify(FindStudentsPrompt) == StudentSearch
  {
    PromptHasStudent();
    PromptHasFind();
  }

  /** Filtering five tokens of which the first and third are dropped. */
  lemma FilterOfFive<T>(f: T -> bool, ws: seq<T>)
    requires |ws| == 5 && !f(ws[0]) && f(ws[1]) && !f(ws[2]) && f(ws[3]) && f(ws[4])
    ensures Filter(f, ws) == [ws[1], ws[3], ws[4]]
  {
    assert ws[4..][1..] == [];
    assert Filter(f, ws[4..]) == [ws[4]];
    assert ws[3..][1..] == ws[4..];
    assert Filter(f, ws[3..]) == [ws[3], ws[4]];
    assert ws[2..][1..] == ws[3..];
    assert Filter(f, ws[2..]) == [ws[3], ws[4]];
    assert ws[1..][1..] == ws[2..];
    assert Filter(f, ws[1..]) == [ws[1], ws[3], ws[4]];
  }

  lemma PromptKeptTokens()
    ensures KeptTokens(FindStudentsPrompt, StudentStopWords) == ["students", "Computer", "Science"]
  {
    FindStudentsTokens();
    WordsKept();
  }

  lemma WordsKept()
    ensures Filter(KeepToken(StudentStopWords), FindStudentsWords) == ["students", "Computer", "Science"]
  {
    var ws := FindStudentsWords;
    assert ws[0] == "Find" && ws[1] == "students" && ws[2] == "in";
    assert ws[3] == "Computer" && ws[4] == "Science";
    FindIsStopWord();
    InIsStopWord();
    StudentsIsNoStopWord();
    ComputerIsNoStopWord();
    ScienceIsNoStopWord();
    FilterOfFive(KeepToken(StudentStopWords), ws);
  }


  lemma JoinQuery()
    ensures Join(["students", "Computer", "Science"], " ") == "students Computer Science"
  {
    var kept := ["students", "Computer", "Science"];
    assert Join(kept[2..], " ") == "Science";
    assert Join(kept[1..], " ") == "Computer" + " " + "Science";
  }

  lemma QueryIsClean()
    ensures NoPunct("students Computer Science") && Trimmed("students Computer Science")
  {
  }

  /** Stop words must equal a whole token: "students" is not the stop word
      "student", so it stays in the query of the suggested prompt. */
  lemma FindStudentsQuery()
    ensures ExtractQuery(FindStudentsPrompt, StudentStopWords) == "students Computer Science"
  {
    PromptKeptTokens();
    assert QueryTokens(FindStudentsPrompt, StudentStopWords) == ["students", "Computer", "Science"];
    JoinQuery();
    QueryIsClean();
    CleanQuery(FindStudentsPrompt, StudentStopWords);
  }

  /** A student whose name and major are shorter than 24 characters and
      whose email has no space. */
  predicate ShortOfQuery(s: Student) {
    |s.name| < 24 && |s.major| < 24 && ' ' !in s.email
  }

  lemma Student0Short() ensures ShortOfQuery(Students[0]) { }
  lemma Student1Short() ensures ShortOfQuery(Students[1]) { }
  lemma Student2Short() ensures ShortOfQuery(Students[2]) { }
  lemma Student3Short() ensures ShortOfQuery(Students[3]) { }
  lemma Student4Short() ensures ShortOfQuery(Students[4]) { }
  lemma Student5Short() ensures ShortOfQuery(Students[5]) { }

  lemma NoMatchWhenShort(query: string, k: nat, s: Student)
    requires 24 <= |query| && k < |query| && query[k] == ' ' && ShortOfQuery(s)
    ensures !StudentMatches(query, s)
  {
    LowerKeepsOut(s.email, ' ');
    NoChar(Lower(s.email), Lower(query), k);
  }

  /** A query of 24 or more characters that holds a space finds no student:
      it is longer than every name and major, and no email has a space. */
  lemma LongSpacedQueryFindsNobody(query: string, k: nat)
    requires 24 <= |query| && k < |query| && query[k] == ' '
    ensures SearchStudents(University, query).data.students == []
  {
    Student0Short(); Student1Short(); Student2Short();
    Student3Short(); Student4Short(); Student5Short();
    assert University.students == Students;
    forall i | 0 <= i < |Students|
      ensures !StudentMatches(query, Students[i])
    {
      NoMatchWhenShort(query, k, Students[i]);
    }
  }

  /** The query extracted from the suggested prompt matches no student. */
  lemma FindStudentsFindsNobody()
    ensures SearchStudents(University, "students Computer Science").data.students == []
  {
    LongSpacedQueryFindsNobody("students Computer Science", 8);
  }
}
