/** `CampusAssistantClient` (src/copilot/client.ts): the tool catalogue and
    help text, the messages it creates, and the session whose transcript
    `sendMessage` appends to. Message ids stand for the random UUIDs the
    source draws: a counter hands out a fresh one per message. */
module Assistant {
  import opened Seqs
  import opened Text
  import opened Data
  import opened Tools
  import opened Router
  import opened Formatter

  datatype Role = UserRole | AssistantRole | ToolRole

  /** The tool a message invoked, with its arguments and its result. */
  datatype ToolCall = ToolCall(name: string, params: Params, result: ToolResult)

  datatype ChatMessage = ChatMessage(id: nat, role: Role, content: string, toolCall: Option<ToolCall>)

  // ---------------------------------------------------------------------
  // getTools and getHelpMessage
  // ---------------------------------------------------------------------

  /** What `getTools` exposes of a registry entry. */
  datatype ToolInfo = ToolInfo(name: string, description: string, parameters: seq<ParamSpec>)

  function Info(t: ToolDefinition): ToolInfo {
    ToolInfo(t.name, t.description, t.parameters)
  }

  /** `getTools`: the registry without its handlers, in registration order. */
  function GetTools(): (r: seq<ToolInfo>)
    ensures |r| == |CampusTools|
    ensures forall i :: 0 <= i < |r| ==> r[i].name == CampusTools[i].name && r[i].description == CampusTools[i].description
    ensures forall i :: 0 <= i < |r| ==> r[i].parameters == CampusTools[i].parameters
  {
    seq(|CampusTools|, i requires 0 <= i < |CampusTools| => Info(CampusTools[i]))
  }

  /** One row of the help table. */
  function ToolRow(t: ToolInfo): string {
    "| `" + t.name + "` | " + t.description + " |"
  }

  function ToolRows(ts: seq<ToolInfo>): (r: seq<string>)
    ensures |r| == |ts| && forall i :: 0 <= i < |ts| ==> r[i] == ToolRow(ts[i])
  {
    seq(|ts|, i requires 0 <= i < |ts| => ToolRow(ts[i]))
  }

  const HelpHead: string :=
    "\U{1F916} **Contoso University AI Campus Assistant**\n\n" +
    "I'm powered by the GitHub Copilot SDK with custom tools registered for this university. " +
    "Here's what I can do:\n\n" +
    "| Tool | Description |\n" +
    "|------|-------------|\n"

  const HelpTail: string :=
    "\n\n**Try these prompts:**\n" +
    "\U{2022} \"Find students majoring in Computer Science\"\n" +
    "\U{2022} \"Show me all courses in the Mathematics department\"\n" +
    "\U{2022} \"Who are the faculty members?\"\n" +
    "\U{2022} \"Give me university statistics\""

  /** `getHelpMessage`: a table with one row per registered tool between a
      fixed head and a fixed list of prompts. */
  function HelpMessage(): string {
    HelpHead + Join(ToolRows(GetTools()), "\n") + HelpTail
  }

  /** The help text lists every registered tool by name and description. */
  lemma HelpListsEveryTool(i: nat)
    requires i < |CampusTools|
    ensures Contains(HelpMessage(), "| `" + CampusTools[i].name + "` | " + CampusTools[i].description + " |")
  {
    var rows := ToolRows(GetTools());
    JoinContains(rows, "\n", i);
    ContainsWithin(Join(rows, "\n"), rows[i], HelpHead, HelpTail);
  }

  /** The reply to a message no rule matches. */
  const IntroText: string :=
    "I'm the Contoso University AI Campus Assistant, powered by the GitHub Copilot SDK. " +
    "I can help you find students, browse courses, look up faculty, and get university statistics. " +
    "Try asking me something like:\n\n" +
    "\U{2022} \"Find students in Computer Science\"\n" +
    "\U{2022} \"List all courses\"\n" +
    "\U{2022} \"Who teaches in Mathematics?\"\n" +
    "\U{2022} \"Show university statistics\""

  // ---------------------------------------------------------------------
  // The replies to one message
  // ---------------------------------------------------------------------

  /** `createToolMessage`: the tool's summary, with the call attached. */
  function ToolMessage(id: nat, name: string, params: Params, result: ToolResult): ChatMessage {
    ChatMessage(id, ToolRole, result.summary, Some(ToolCall(name, params, result)))
  }

  /** `createAssistantMessage`. */
  function AssistantMessage(id: nat, content: string): ChatMessage {
    ChatMessage(id, AssistantRole, content, None)
  }

  predicate IsToolName(name: string) {
    name == SearchStudentsName || name == ListCoursesName || name == TeacherInfoName || name == StatsName
  }

  /** A registered tool's result can always be rendered under its name. */
  lemma InvokedRenderable(db: Campus, name: string, params: Params)
    requires IsToolName(name) && ParamsSupplied(name, params)
    ensures Renderable(name, InvokeTool(db, name, params))
  {
    InvokeByName(db, params);
    if name == SearchStudentsName {
      SearchStudentsRenderable(db, params["query"]);
    } else if name == ListCoursesName {
      ListCoursesRenderable(db, if "department" in params then params["department"] else "");
    } else if name == TeacherInfoName {
      GetTeacherInfoRenderable(db, params["query"]);
    } else {
      GetUniversityStatsRenderable(db);
    }
  }

  /** A tool call's two messages: the tool message, then the rendered
      reply. */
  function ToolExchange(db: Campus, id: nat, name: string, params: Params): (r: seq<ChatMessage>)
    requires IsToolName(name) && ParamsSupplied(name, params)
    ensures |r| == 2 && r[0].id == id && r[1].id == id + 1
    ensures r[0].role == ToolRole && r[0].toolCall == Some(ToolCall(name, params, InvokeTool(db, name, params)))
    ensures r[0].toolCall.value.result.success && r[0].content == r[0].toolCall.value.result.summary
    ensures r[1].role == AssistantRole && r[1].toolCall.None?
    ensures Renderable(name, r[0].toolCall.value.result) && r[1].content == Format(name, r[0].toolCall.value.result)
  {
    var result := InvokeTool(db, name, params);
    InvokedRenderable(db, name, params);
    ToolNamesRegistered();
    [ToolMessage(id, name, params, result), AssistantMessage(id + 1, Format(name, result))]
  }

  /** The tool each tool intent invokes. */
  function ToolFor(intent: Intent): string {
    match intent
    case StudentSearch => SearchStudentsName
    case CourseListing => ListCoursesName
    case TeacherLookup => TeacherInfoName
    case Statistics => StatsName
    case _ => ""
  }

  predicate UsesTool(intent: Intent) {
    !intent.Help? && !intent.Intro?
  }

  /** What `sendMessage` does about a message: invoke a tool with the
      arguments it extracted, or show the help text or the introduction. */
  datatype Action = Invoke(name: string, params: Params) | ShowHelp | ShowIntro

  /** The action for `intent`, with the arguments extracted from `message`. */
  function Route(intent: Intent, message: string): (a: Action)
  {
    match intent
    case StudentSearch => Invoke(SearchStudentsName, map["query" := ExtractQuery(message, StudentStopWords)])
    case CourseListing => Invoke(ListCoursesName, map["department" := DepartmentIn(message)])
    case TeacherLookup => Invoke(TeacherInfoName, map["query" := ExtractQuery(message, TeacherStopWords)])
    case Statistics => Invoke(StatsName, map[])
    case Help => ShowHelp
    case Intro => ShowIntro
  }

  /** Every action the router produces can be carried out, and it
      invokes a tool exactly for the four tool intents, the tool of the
      intent. */
  lemma RouteRunnable(intent: Intent, message: string)
    ensures Route(intent, message).Invoke? <==> UsesTool(intent)
    ensures Runnable(Route(intent, message))
    ensures Route(intent, message).Invoke? ==> Route(intent, message).name == ToolFor(intent)
  {
    match intent
    case StudentSearch => SearchesWithQuery(message);
    case CourseListing => ListsDepartment(message);
    case TeacherLookup => LooksUpWithQuery(message);
    case _ => FixedRoutes(message);
  }

  /** The other intents need nothing from the message. */
  lemma FixedRoutes(message: string)
    ensures Route(Statistics, message) == Invoke(StatsName, map[])
    ensures Route(Help, message) == ShowHelp && Route(Intro, message) == ShowIntro
  {
  }

  /** A student search sends the extracted query. */
  lemma SearchesWithQuery(message: string)
    ensures Route(StudentSearch, message).Invoke? && Runnable(Route(StudentSearch, message))
    ensures Route(StudentSearch, message).name == ToolFor(StudentSearch)
  {
  }

  /** A course listing sends the department the message names. */
  lemma ListsDepartment(message: string)
    ensures Route(CourseListing, message).Invoke? && Runnable(Route(CourseListing, message))
    ensures Route(CourseListing, message).name == ToolFor(CourseListing)
  {
  }

  /** A faculty question sends the extracted query. */
  lemma LooksUpWithQuery(message: string)
    ensures Route(TeacherLookup, message).Invoke? && Runnable(Route(TeacherLookup, message))
    ensures Route(TeacherLookup, message).name == ToolFor(TeacherLookup)
  {
  }

  /** An action `sendMessage` can carry out: a registered tool with the
      arguments it requires, or a text. */
  predicate Runnable(a: Action) {
    a.Invoke? ==> IsToolName(a.name) && ParamsSupplied(a.name, a.params)
  }

  /** Replies numbered on from `id`, with a tool call on exactly the tool
      messages, ending with an assistant message. */
  ghost predicate NumberedReplies(r: seq<ChatMessage>, id: nat) {
    && |r| > 0
    && (forall k :: 0 <= k < |r| ==> r[k].id == id + k)
    && (forall k :: 0 <= k < |r| ==> (r[k].role == ToolRole <==> r[k].toolCall.Some?))
    && r[|r| - 1].role == AssistantRole && r[|r| - 1].toolCall.None?
  }

  /** The messages `sendMessage` returns for action `a`, numbered from
      `id`: a tool message and the rendered reply for a tool call, the
      text alone otherwise. */
  function Responses(db: Campus, a: Action, id: nat): (r: seq<ChatMessage>)
    requires Runnable(a)
    ensures |r| == (if a.Invoke? then 2 else 1) && NumberedReplies(r, id)
  {
    match a
    case Invoke(name, params) =>
      var r := ToolExchange(db, id, name, params);
      ExchangeNumbered(r, id);
      r
    case ShowHelp => [AssistantMessage(id, HelpMessage())]
    case ShowIntro => [AssistantMessage(id, IntroText)]
  }

  /** A tool exchange is numbered on from its first id. */
  lemma ExchangeNumbered(r: seq<ChatMessage>, id: nat)
    requires |r| == 2 && r[0].id == id && r[1].id == id + 1
    requires r[0].role == ToolRole && r[0].toolCall.Some?
    requires r[1].role == AssistantRole && r[1].toolCall.None?
    ensures NumberedReplies(r, id)
  {
  }

  /** The replies `sendMessage` gives to `message`, numbered from `id`. */
  function Answer(db: Campus, message: string, id: nat): seq<ChatMessage> {
    RouteRunnable(Classify(message), message);
    Responses(db, Route(Classify(message), message), id)
  }

  /** The replies to a message with a tool intent: a tool message
      recording a successful call of the intent's tool, then the rendering
      of that call's result. */
  lemma AnswerFollowsIntent(db: Campus, message: string, id: nat)
    ensures var r, intent := Answer(db, message, id), Classify(message);
      UsesTool(intent) ==>
        && |r| == 2 && r[0].id == id && r[1].id == id + 1
        && r[0].role == ToolRole && r[1].role == AssistantRole && r[1].toolCall.None?
        && r[0].toolCall.Some? && r[0].toolCall.value.name == ToolFor(intent)
    ensures var r, intent := Answer(db, message, id), Classify(message);
      UsesTool(intent) ==>
        && |r| == 2 && r[0].toolCall.Some?
        && r[0].toolCall.value.result.success
        && r[0].content == r[0].toolCall.value.result.summary
        && Renderable(ToolFor(intent), r[0].toolCall.value.result)
        && r[1].content == Format(ToolFor(intent), r[0].toolCall.value.result)
  {
    if UsesTool(Classify(message)) {
      AnswerIsExchange(db, message, id);
    }
  }

  /** Help and the fallback give one reply with their fixed text. */
  lemma FixedAnswers(db: Campus, message: string, id: nat)
    ensures Classify(message) == Help ==> Answer(db, message, id) == [AssistantMessage(id, HelpMessage())]
    ensures Classify(message) == Intro ==> Answer(db, message, id) == [AssistantMessage(id, IntroText)]
  {
    FixedRoutes(message);
  }

  /** A tool intent's replies are the exchange for the call it routes to. */
  lemma AnswerIsExchange(db: Campus, message: string, id: nat)
    requires UsesTool(Classify(message))
    ensures Route(Classify(message), message).Invoke?
    ensures var a := Route(Classify(message), message);
      && IsToolName(a.name) && ParamsSupplied(a.name, a.params)
      && Answer(db, message, id) == ToolExchange(db, id, a.name, a.params)
  {
    RouteRunnable(Classify(message), message);
  }

  /** A tool call that finds nothing is answered with the no-results text
      ahead of the tool's summary. */
  lemma EmptyResultReply(db: Campus, message: string, id: nat)
    requires UsesTool(Classify(message))
    ensures |Answer(db, message, id)| == 2 && Answer(db, message, id)[0].toolCall.Some?
    ensures var r := Answer(db, message, id);
      var data := r[0].toolCall.value.result.data;
      data.IsList() && data.Count() == 0 ==> r[1].content == NoResultsPrefix + r[0].content
  {
    AnswerFollowsIntent(db, message, id);
  }

  /** A student search calls `searchStudents` with the extracted query. */
  lemma StudentSearchReply(db: Campus, message: string, id: nat)
    requires Classify(message) == StudentSearch
    ensures var r, query := Answer(db, message, id), ExtractQuery(message, StudentStopWords);
      && |r| == 2
      && r[0].toolCall == Some(ToolCall(SearchStudentsName, map["query" := query], SearchStudents(db, query)))
  {
    SearchesWithQuery(message);
    InvokeByName(db, map["query" := ExtractQuery(message, StudentStopWords)]);
  }

  /** A course listing calls `listCourses` with the department the message
      names, or the empty one. */
  lemma CourseListingReply(db: Campus, message: string, id: nat)
    requires Classify(message) == CourseListing
    ensures var r, dept := Answer(db, message, id), DepartmentIn(message);
      && |r| == 2
      && r[0].toolCall == Some(ToolCall(ListCoursesName, map["department" := dept], ListCourses(db, dept)))
      && r[1].content == Format(ListCoursesName, ListCourses(db, dept))
  {
    ListsDepartment(message);
    InvokeByName(db, map["department" := DepartmentIn(message)]);
    ListCoursesRenderable(db, DepartmentIn(message));
  }

  /** A faculty question calls `getTeacherInfo` with the extracted query. */
  lemma TeacherLookupReply(db: Campus, message: string, id: nat)
    requires Classify(message) == TeacherLookup
    ensures var r, query := Answer(db, message, id), ExtractQuery(message, TeacherStopWords);
      && |r| == 2
      && r[0].toolCall == Some(ToolCall(TeacherInfoName, map["query" := query], GetTeacherInfo(db, query)))
  {
    var params := map["query" := ExtractQuery(message, TeacherStopWords)];
    AnswerIsExchange(db, message, id);
    assert Route(TeacherLookup, message) == Invoke(TeacherInfoName, params);
    InvokeByName(db, params);
  }

  /** The statistics list only departments some course has. */
  lemma StatsDepartmentsOneLine(db: Campus)
    requires forall i :: 0 <= i < |db.courses| ==> OneLine(db.courses[i].department)
    ensures var ds := GetUniversityStats(db).data.stats.departments;
      forall k :: 0 <= k < |ds| ==> OneLine(ds[k])
  {
    var ds := GetUniversityStats(db).data.stats.departments;
    forall k | 0 <= k < |ds|
      ensures OneLine(ds[k])
    {
      var i :| 0 <= i < |CourseDepartments(db)| && CourseDepartments(db)[i] == ds[k];
      assert ds[k] == db.courses[i].department;
    }
  }

  /** A statistics request calls `getUniversityStats` without arguments, and
      the reply is the overview: header, blank line, then students, courses,
      faculty, enrollments and departments, one per line. */
  lemma StatisticsReply(db: Campus, message: string, id: nat)
    requires Classify(message) == Statistics
    requires forall i :: 0 <= i < |db.courses| ==> OneLine(db.courses[i].department)
    ensures var r := Answer(db, message, id);
      && |r| == 2
      && r[0].toolCall == Some(ToolCall(StatsName, map[], GetUniversityStats(db)))
      && SplitOn(r[1].content, '\n') == StatsLines(GetUniversityStats(db).data.stats)
  {
    FixedRoutes(message);
    InvokeByName(db, map[]);
    StatsDepartmentsOneLine(db);
    StatsReplyLines(GetUniversityStats(db));
  }

  /** The `if`/`else if` chain of `sendMessage`: what to do about
      `userMessage`. */
  method Decide(userMessage: string) returns (action: Action)
    ensures action == Route(Classify(userMessage), userMessage)
  {
    var lower := Lower(userMessage);
    if AsksStudents(lower) {
      action := Invoke(SearchStudentsName, map["query" := ExtractQuery(userMessage, StudentStopWords)]);
    } else if AsksCourses(lower) {
      var dept := ExtractDepartment(userMessage);
      action := Invoke(ListCoursesName, map["department" := dept]);
    } else if AsksTeachers(lower) {
      action := Invoke(TeacherInfoName, map["query" := ExtractQuery(userMessage, TeacherStopWords)]);
    } else if AsksStatistics(lower) {
      action := Invoke(StatsName, map[]);
    } else if AsksHelp(lower) {
      action := ShowHelp;
    } else {
      action := ShowIntro;
    }
  }

  // ---------------------------------------------------------------------
  // The session
  // ---------------------------------------------------------------------

  /** Ids increase along the transcript and are all below the counter,
      so every new message gets an id no earlier one has; exactly the
      tool messages carry a tool call. */
  ghost predicate WellNumbered(history: seq<ChatMessage>, nextId: nat) {
    && (forall i, j :: 0 <= i < j < |history| ==> history[i].id < history[j].id)
    && (forall i :: 0 <= i < |history| ==> history[i].id < nextId)
    && (forall i :: 0 <= i < |history| ==> (history[i].role == ToolRole <==> history[i].toolCall.Some?))
  }

  /** Messages numbered on from the counter keep the transcript well
      numbered. */
  lemma NumberedOn(history: seq<ChatMessage>, nextId: nat, msgs: seq<ChatMessage>)
    requires WellNumbered(history, nextId)
    requires forall k :: 0 <= k < |msgs| ==> msgs[k].id == nextId + k
    requires forall k :: 0 <= k < |msgs| ==> (msgs[k].role == ToolRole <==> msgs[k].toolCall.Some?)
    ensures WellNumbered(history + msgs, nextId + |msgs|)
  {
  }

  /** The client and its private transcript. */
  class Session {
    /** The records the tools read. */
    const campus: Campus
    var history: seq<ChatMessage>
    var nextId: nat

    /** The transcript is well numbered against the counter. */
    ghost predicate Valid()
      reads this
    {
      WellNumbered(history, nextId)
    }

    constructor()
      ensures Valid() && history == [] && campus == University
    {
      campus := University;
      history := [];
      nextId := 0;
    }

    /** Stands for `crypto.randomUUID()`. */
    method FreshId() returns (id: nat)
      modifies this
      ensures id == old(nextId) && nextId == old(nextId) + 1 && history == old(history)
    {
      id := nextId;
      nextId := nextId + 1;
    }

    /** `sendMessage`: records the user's message, then the replies the
        first matching rule produces, and returns the replies. */
    method SendMessage(userMessage: string) returns (responses: seq<ChatMessage>)
      requires Valid()
      modifies this
      ensures Valid()
      ensures responses == Answer(campus, userMessage, old(nextId) + 1)
      ensures history == old(history) + [ChatMessage(old(nextId), UserRole, userMessage, None)] + responses
      ensures nextId == old(nextId) + 1 + |responses|
    {
      var userId := FreshId();
      var userMsg := ChatMessage(userId, UserRole, userMessage, None);
      NumberedOn(history, userId, [userMsg]);
      history := history + [userMsg];

      var action := Decide(userMessage);
      RouteRunnable(Classify(userMessage), userMessage);
      responses := Reply(action);
      NumberedOn(history, userId + 1, responses);
      history := history + responses;
    }

    /** Carries out `action`: invokes the tool and renders its result, or
        answers with the text. */
    method Reply(action: Action) returns (responses: seq<ChatMessage>)
      requires Runnable(action)
      modifies this
      ensures responses == Responses(campus, action, old(nextId))
      ensures nextId == old(nextId) + |responses| && history == old(history)
    {
      if action.Invoke? {
        var name, params := action.name, action.params;
        var result := InvokeTool(campus, name, params);
        var toolId := FreshId();
        InvokedRenderable(campus, name, params);
        var replyId := FreshId();
        responses := [ToolMessage(toolId, name, params, result), AssistantMessage(replyId, Format(name, result))];
      } else {
        var replyId := FreshId();
        var text := if action.ShowHelp? then HelpMessage() else IntroText;
        responses := [AssistantMessage(replyId, text)];
      }
    }

    /** `clearHistory`: empties the transcript; ids are never reused. */
    method ClearHistory()
      requires Valid()
      modifies this
      ensures Valid() && history == [] && nextId == old(nextId)
    {
      history := [];
    }
  }
}
