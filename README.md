# Contoso University campus assistant, modelled in Dafny

This project models the core of the Contoso University demo's AI campus
assistant. The assistant reads a free-text question. An ordered chain of
keyword rules picks one of four campus tools, or the help text, or a fixed
introduction. The assistant pulls the tool's argument out of the text, runs
the tool over the university's constant student, course and teacher records,
and renders the result as reply text. Every exchange is appended to a private
transcript. The project also models the lookup of a department's display
colour.

Modules follow the program's structure:

- `Seqs` and `Text` define the array and string built-ins the source leans on. Each is defined once, with the lemmas that say what it computes. They cover `filter`, `find`, `slice(-n)`, `reduce` and `[...new Set(xs)]`, plus `toLowerCase`, `includes`, `split(/\s+/)`, `replace(/[?.,!]/g, '')`, `trim`, `join`, `split('\n')` and number rendering.
- `Data` holds the three record kinds and the university's records. `Campus` bundles the records, so that the tools can be stated over any records as well as over these.
- `Tools` holds the four handlers of `src/copilot/tools.ts` and `invokeTool`.
- `Router` holds the keyword rules of `sendMessage`, `extractQuery` and `extractDepartment`.
- `Formatter` holds `formatToolResponse`.
- `Assistant` holds `CampusAssistantClient`:
  - `getTools`, `getHelpMessage` and the message constructors;
  - the `Answer` specification of the replies to a message;
  - the `Session` class, whose `SendMessage`, `Reply` and `ClearHistory` methods update the transcript and the id counter.
- `Departments` holds `getDepartmentColor`.
- `Scenarios` follows the prompts the assistant page suggests and its browser tests exercise, from the typed text to the reply.

The model shows one quirk of the source. Stop words must equal a whole token. So the suggested prompt "Find students in Computer Science" is a student search whose query is "students Computer Science". On the university's records that query matches nobody, and the reply is the no-results text (`Scenarios.FindStudentsOnUniversity`).

## Model

| member | source | states |
|---|---|---|
| Seqs.Filter | src/copilot/tools.ts:30-34 | `filter` keeps at most the input's elements, and only ones that satisfy the predicate |
| Seqs.FilterMembers | src/copilot/tools.ts:30-34 | every kept element comes from the input, and every input element that satisfies the predicate is kept |
| Seqs.FilterSelects | src/copilot/tools.ts:30-34 | the filter's result is the subsequence of exactly the satisfying elements, at strictly increasing positions of the input |
| Seqs.Find | src/copilot/tools.ts:104 | `find` gives nothing exactly when no element satisfies the predicate, otherwise the first element of the input that does |
| Seqs.FirstIndexWhere | src/copilot/client.ts:90-92 | the position of the first element that satisfies the predicate: none before it does, and it does unless it is the length |
| Seqs.LastN | src/copilot/client.ts:85 | `slice(-n)` has `min(n, length)` elements and is the suffix of the input |
| Seqs.DedupSpec | src/copilot/tools.ts:91 | `[...new Set(xs)]` has no duplicates, holds exactly the values of `xs`, and orders them by first appearance |
| Seqs.FoldSumIsSum | src/copilot/tools.ts:85 | the `reduce` left fold from accumulator `acc` equals `acc` plus the structural sum |
| Text.Lower | src/copilot/client.ts:43 | lower-casing keeps the length and maps each character on its own |
| Text.ContainsIff | src/copilot/tools.ts:31-33 | the left-to-right `includes` scan succeeds exactly when some slice of the text equals the pattern |
| Text.LowerContains | src/copilot/tools.ts:31-33 | a text that contains a pattern still contains it once both are lower-cased |
| Text.Split | src/copilot/client.ts:84 | `split(/\s+/)` gives at least one piece, no piece holds whitespace, and only the first and last pieces can be empty |
| Text.SplitGaps | src/copilot/client.ts:84 | every string is its split pieces with a non-empty run of whitespace between each two of them |
| Text.SplitWeave | src/copilot/client.ts:84 | conversely, any such arrangement of pieces and whitespace runs splits back into exactly those pieces, so the split is the string's only such decomposition |
| Text.SplitJoin | src/copilot/client.ts:84-85 | splitting on whitespace undoes joining non-empty, space-free words with single spaces |
| Text.StripPunct | src/copilot/client.ts:84-85 | removing `?.,!` leaves no such character |
| Text.StripPunctClean | src/copilot/client.ts:85 | removing `?.,!` changes nothing in a text without them |
| Text.Trim | src/copilot/client.ts:85 | `trim` gives a text with no whitespace at either end. The result is a slice of the input with only whitespace around it, and it is empty exactly when the input is all whitespace |
| Text.TrimTrimmed | src/copilot/client.ts:85 | trimming a trimmed text changes nothing |
| Text.SplitOnJoin | src/copilot/client.ts:121-126 | splitting on a character undoes joining pieces that lack it |
| Text.JoinSplitOn | src/copilot/client.ts:121-126 | joining the pieces of a split on a character gives back the text |
| Text.StripPunctJoin | src/copilot/client.ts:85 | removing `?.,!` from a join removes them from each piece, when the separator has none |
| Text.StrippedJoinWords | src/copilot/client.ts:85 | space-free pieces joined with spaces, stripped of `?.,!` and trimmed, give "" when every piece strips to "", and otherwise a text that splits into exactly the stripped non-empty pieces |
| Text.NatToString | src/copilot/tools.ts:38 | a count renders as a non-empty string of decimal digits that denotes the count, without leading zeros ("0" exactly for zero) |
| Departments.NamesUnique | src/data/departments.ts:6-12 | no two table entries share a name, so a name has at most one colour |
| Departments.DepartmentColor | src/data/departments.ts:15 | a listed name gets its entry's colour, and any other name gets the grey fallback |
| Departments.FallbackIffUnlisted | src/data/departments.ts:6-15 | a name gets the fallback exactly when the table does not list it |
| Departments.LookupIsCaseSensitive | src/data/departments.ts:15 | "Computer Science" is blue, while "computer science" falls back to grey |
| Departments.EnglishAndHistoryFallBack | src/data/departments.ts:6-12 | English and History, which the router knows, always get the fallback |
| Tools.ToolNamesUnique | src/copilot/tools.ts:21-100 | no two registered tools share a name |
| Tools.SearchStudents | src/copilot/tools.ts:28-39 | succeeds with a student list, every student listed matches the query, and the summary gives their count and the query |
| Tools.SearchStudentsInOrder | src/copilot/tools.ts:28-34 | the students found are exactly the matching records, in dataset order |
| Tools.ListCourses | src/copilot/tools.ts:48-58 | an empty department lists every course as "Listing all N courses". Otherwise every course listed is in the department, and the summary gives the count and the department |
| Tools.ListCoursesInOrder | src/copilot/tools.ts:49-51 | with a department, the courses listed are exactly those whose department contains it case-insensitively, in dataset order |
| Tools.GetTeacherInfo | src/copilot/tools.ts:67-77 | succeeds with a teacher list, every teacher listed matches by name or department, and the summary gives the count and the query |
| Tools.GetTeacherInfoInOrder | src/copilot/tools.ts:67-72 | the teachers found are exactly the matching records, in dataset order |
| Tools.CourseDepartments | src/copilot/tools.ts:91 | the course departments, one per course, in course order |
| Tools.GetUniversityStats | src/copilot/tools.ts:84-97 | the three totals are the record counts, and enrollments are the sum of every student's courses. The departments are the course departments, each once, in first-appearance order. The summary gives the three totals |
| Tools.InvokeTool | src/copilot/tools.ts:103-108 | an unknown name fails with "Unknown tool: " and the name; a registered name returns that tool's handler result; success holds exactly for registered names |
| Tools.ToolNamesRegistered | src/copilot/tools.ts:21-100 | the four tool names are registered |
| Tools.Handle | src/copilot/tools.ts:103-108 | `tool.handler(params)`: the dispatch to the four handlers; `HandleSucceeds` states what every handler returns |
| Tools.HandleSucceeds | src/copilot/tools.ts:28-98 | every handler succeeds with data, and the data is a list of records for every handler but the statistics one |
| Tools.InvokeByName | src/copilot/tools.ts:103-108 | each registered name runs its own handler; a missing department is treated as the empty one |
| Router.Classify | src/copilot/client.ts:43-77 | the `if`/`else if` chain on the lower-cased message; `ClassifyFollowsRules` states it as first-match over the rule table |
| Router.ClassifyFollowsRules | src/copilot/client.ts:43-77 | the `if`/`else if` chain is first-match-wins over the rule table (student search, course listing, teacher lookup, statistics, help), with the introduction when no rule fires |
| Router.CourseListPriority | src/copilot/client.ts:46-55 | a message with "course" and "list" goes to `listCourses` exactly when it is not a student search |
| Router.KeptTokens | src/copilot/client.ts:84 | no kept token is a stop word or holds whitespace |
| Router.KeptTokensInOrder | src/copilot/client.ts:84 | the kept tokens are exactly the tokens that are not stop words, in message order |
| Router.QueryTokens | src/copilot/client.ts:84-85 | the query tokens are the last three of the tokens that are not stop words, or all of them when there are fewer |
| Router.QueryWords | src/copilot/client.ts:85 | the query tokens stripped of `?.,!` leave no word exactly when every one of them strips to "" |
| Router.ExtractQuery | src/copilot/client.ts:83-86 | `extractQuery`, computed as the source does; what it returns is stated by `ExtractQueryWords` and `ExtractQueryClean` |
| Router.ExtractQueryWords | src/copilot/client.ts:83-86 | the whole message comes back when no query token keeps a character once `?.,!` are removed; otherwise the query is non-empty and splits into exactly the stripped, non-empty query tokens, in order |
| Router.ExtractQueryClean | src/copilot/client.ts:83-86 | the query is either the whole message or non-empty, punctuation-free and trimmed |
| Router.AllStopWordsFallBack | src/copilot/client.ts:85 | a message made only of stop words gives the whole message back |
| Router.CleanQuery | src/copilot/client.ts:85 | when the joined tokens need no stripping or trimming, they are the query |
| Router.QueryRoundTrip | src/copilot/client.ts:84-85 | when the last three kept tokens are non-empty and punctuation-free, splitting the query gives them back |
| Router.DepartmentIn | src/copilot/client.ts:88-94 | `extractDepartment`, a scan of the department list in order; what it returns is stated by `DepartmentInSpec` |
| Router.DepartmentInSpec | src/copilot/client.ts:88-94 | the result is "" or a known department. It is "" exactly when none is mentioned; otherwise it is mentioned, and no earlier department in the list is |
| Router.ExtractDepartment | src/copilot/client.ts:88-94 | the loop with early return computes `DepartmentIn` |
| Router.FindStudentsIsStudentSearch | src/copilot/client.ts:46 | "Find students in Computer Science" is a student search |
| Router.FindStudentsQuery | src/copilot/client.ts:47 | its query is "students Computer Science", because "students" is not the stop word "student" |
| Router.LongSpacedQueryFindsNobody | src/copilot/tools.ts:28-34 | on the university's records, a query of 24 or more characters that holds a space matches no student |
| Router.FindStudentsFindsNobody | src/copilot/tools.ts:28-34 | "students Computer Science" matches no student on the university's records |
| Formatter.Capped | src/copilot/client.ts:134 | `slice(0, 10)` is the prefix of at most ten items |
| Formatter.Format | src/copilot/client.ts:115-150 | failures render as the error text, successful empty lists as the no-results text, and non-list data other than statistics under their own tool as the bare summary |
| Formatter.SearchStudentsRenderable | src/copilot/tools.ts:35-39 | a student search result can be rendered under its tool's name |
| Formatter.ListCoursesRenderable | src/copilot/tools.ts:52-58 | a course listing result can be rendered under its tool's name |
| Formatter.GetTeacherInfoRenderable | src/copilot/tools.ts:73-77 | a faculty result can be rendered under its tool's name |
| Formatter.GetUniversityStatsRenderable | src/copilot/tools.ts:93-97 | a statistics result can be rendered under its tool's name |
| Formatter.StudentReplyCapped | src/copilot/client.ts:133-138 | a non-empty student reply is the header, a blank line and one line per student for the first ten students, in order |
| Formatter.CourseReplyCapped | src/copilot/client.ts:133-142 | a non-empty course reply is the header, a blank line and one line per course for the first ten courses, in order |
| Formatter.TeacherReplyCapped | src/copilot/client.ts:133-146 | a non-empty faculty reply is the header, a blank line and one line per teacher for the first ten teachers, in order |
| Formatter.StatsReplyLines | src/copilot/client.ts:119-126 | the statistics reply is the overview header, a blank line, then students, courses, faculty, enrollments and the comma-joined departments, one per line |
| Assistant.GetTools | src/copilot/client.ts:25-31 | `getTools` lists every registered tool's name, description and parameters, in registration order |
| Assistant.HelpMessage | src/copilot/client.ts:152-164 | the help text, built as the source builds it; `HelpListsEveryTool` states that it lists every tool |
| Assistant.ToolMessage | src/copilot/client.ts:96-104 | `createToolMessage`: a tool-role message whose text is the result's summary and which records the call; `Responses` and `AnswerFollowsIntent` state its use |
| Assistant.AssistantMessage | src/copilot/client.ts:106-113 | `createAssistantMessage`: an assistant-role message with the given text and no call; `FixedAnswers` states its use |
| Assistant.HelpListsEveryTool | src/copilot/client.ts:152-164 | the help text has a table row with each registered tool's name and description |
| Assistant.InvokedRenderable | src/copilot/client.ts:48-64 | whatever a registered tool returns can be rendered under its name |
| Assistant.ToolExchange | src/copilot/client.ts:48-64 | a tool call gives a tool message carrying the summary and the call, then an assistant message with the rendered result, numbered on |
| Assistant.Route | src/copilot/client.ts:46-77 | the action each intent leads to; `RouteRunnable` states which tool it calls and with what |
| Assistant.RouteRunnable | src/copilot/client.ts:46-77 | the router invokes a tool exactly for the four tool intents, and always the intent's tool with the arguments it requires |
| Assistant.FixedRoutes | src/copilot/client.ts:61-77 | statistics calls its tool with no arguments; help and the fallback show their text |
| Assistant.Responses | src/copilot/client.ts:42-77 | a tool call gives two replies and a text one; the replies are numbered on from the first id, only tool messages carry a call, and the last reply is from the assistant |
| Assistant.Answer | src/copilot/client.ts:42-77 | the replies `sendMessage` returns, as a function of the message; `AnswerFollowsIntent`, `FixedAnswers` and `Responses` state their shape |
| Assistant.AnswerFollowsIntent | src/copilot/client.ts:46-64 | a message with a tool intent gets a tool message recording a successful call of the intent's tool, then the rendering of its result |
| Assistant.FixedAnswers | src/copilot/client.ts:65-77 | help gets the help text and anything else unmatched gets the introduction, each as one assistant message |
| Assistant.AnswerIsExchange | src/copilot/client.ts:46-64 | a tool intent's replies are the exchange for the call the router makes |
| Assistant.EmptyResultReply | src/copilot/client.ts:129-131 | a tool call that finds nothing is answered with "No results found. " ahead of the summary |
| Assistant.StudentSearchReply | src/copilot/client.ts:46-50 | a student search calls `searchStudents` with the extracted query |
| Assistant.CourseListingReply | src/copilot/client.ts:51-55 | a course listing calls `listCourses` with the department the message names, or "", and renders that result |
| Assistant.TeacherLookupReply | src/copilot/client.ts:56-60 | a faculty question calls `getTeacherInfo` with the extracted query |
| Assistant.StatisticsReply | src/copilot/client.ts:61-64 | a statistics question calls `getUniversityStats` with no arguments and gets the overview, line by line |
| Assistant.Decide | src/copilot/client.ts:43-77 | the `if`/`else if` chain of `sendMessage` picks the action the router specifies |
| Assistant.NumberedOn | src/copilot/client.ts:40-80 | appending messages numbered on from the counter keeps ids increasing along the transcript and below the counter |
| Assistant.Session.constructor | src/copilot/client.ts:22-23 | a new client has an empty transcript |
| Assistant.Session.FreshId | src/copilot/client.ts:33-39 | each new message gets the next unused id |
| Assistant.Session.SendMessage | src/copilot/client.ts:33-81 | appends the user message and then exactly the returned replies, which are `Answer` for the message. Earlier entries are kept and the transcript stays well numbered |
| Assistant.Session.Reply | src/copilot/client.ts:48-77 | carries out the action: the tool and assistant messages of a call, or the one text reply |
| Assistant.Session.ClearHistory | src/copilot/client.ts:166-168 | the transcript is empty afterwards, and ids are not reused |
| Scenarios.FindStudentsInComputerScience | src/copilot/client.ts:46-50 | "Find students in Computer Science" calls `searchStudents` with "students Computer Science"; when that finds nobody, the reply is the no-results text |
| Scenarios.FindStudentsOnUniversity | src/copilot/client.ts:129-131 | on the university's records that prompt is answered with the no-results text |
| Scenarios.StatisticsPromptIsStatistics | tests/assistant.spec.ts:21-25 | "Show university statistics" is a statistics question |
| Scenarios.ShowStatistics | tests/assistant.spec.ts:21-25 | the statistics prompt gets the University Overview with 6 students, 8 courses and 6 faculty, line by line in the source's order |
| Scenarios.NoRuleWithout | src/copilot/client.ts:46-77 | a lower-cased text without d, r, f, v, y or l and without "st" matches no keyword rule |
| Scenarios.TeachesInMathematics | src/copilot/client.ts:74 | the introduction's example "Who teaches in Mathematics?", in any capitalisation, matches no rule ("teaches" is not "teacher") and is answered with the introduction itself |
| Scenarios.TeachesPromptGetsIntroduction | src/copilot/client.ts:65-77 | the example as written gets the introduction back |
| Scenarios.CoursesPromptIsCourseListing | tests/assistant.spec.ts:27-30 | "List all courses", in any capitalisation, is a course listing |
| Scenarios.CoursesPromptNoDepartment | src/copilot/client.ts:88-94 | that prompt names no department |
| Scenarios.NoDepartmentLetters | src/copilot/client.ts:88-94 | a message without m, b, n, p or h names no known department |
| Scenarios.CourseLineNamesCode | src/copilot/client.ts:141 | a course's line names its code |
| Scenarios.CatalogueShowsFirst | src/copilot/client.ts:139-142 | listing the whole catalogue renders the first course's line |
| Scenarios.ListAllCourses | tests/assistant.spec.ts:27-30 | "List all courses" calls `listCourses` with department "" on the whole catalogue, and the reply has the first course's line |
| Scenarios.ListAllCoursesPrompt | tests/assistant.spec.ts:27-30 | on the university's catalogue the reply names CS101 |

## Left out

- The React pages and components, the chat bubbles, scrolling and styling are presentation only.
- Timestamps (`new Date()`) are not modelled.
- Random ids (`crypto.randomUUID()`) are modelled as a counter on the session. Fresh ids are distinct and increasing; their random text is not modelled.
- `sendMessage` is `async`, but nothing in it awaits, so it is modelled as a synchronous method.
- Text.Lower: `toLowerCase` is modelled for ASCII letters only. Full Unicode case mapping is not modelled.
- Text.Split and Text.Trim use ECMAScript's whitespace characters, written out. No regex engine is modelled.
- Tools.InvokeTool: requires a `query` argument for `searchStudents` and `getTeacherInfo`. The source's handlers would throw on a missing one, and that throw is not modelled; `sendMessage` always passes the argument.
- Formatter.Format: requires that the data matches the tool name (`Renderable`). The source probes an untyped payload, and would throw or print `undefined` fields for a mismatch that no handler produces.
- Assistant.Session.SendMessage: the `if`/`else if` chain is the separate method `Decide`, and building the replies is `Reply`. The local `responses` array is built in one assignment rather than by two `push` calls.
- Data: the tools read the records as a `Campus` value passed in, not as module globals. The session holds the university's records.
- Tools.SearchStudents, Tools.ListCourses and Tools.GetTeacherInfo: their own contracts state only that every record returned matches. That every matching record is returned, in order, is stated by `SearchStudentsInOrder`, `ListCoursesInOrder` and `GetTeacherInfoInOrder`.
- Scenarios.ListAllCoursesPrompt: states that the reply contains "CS101" rather than splitting the whole eight-course reply into lines. `Formatter.CourseReplyCapped` gives the general line structure.
- Routing precedence: the rule "course and list always gives `listCourses`" does not hold in the code. A message that is also a student search, such as "find student course list", goes to `searchStudents`, because that rule is checked first. The model follows the code (`Router.CourseListPriority`).
