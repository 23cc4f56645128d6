# Daily goal graph — a Dafny model

This project models the core of a daily-goal tracker. The tracker is a canvas with one node per day. Each node holds the day's goal, a completed flag, an optional summary of what was done, and a list of todos. Directed edges link each day to an earlier one. A chat agent and a voice endpoint drive the canvas through six named setters, and a row store persists one row per day.

The model covers these pieces, one Dafny module each:

- **DayKeys** (`day_keys.dfy`): `yyyy-mm-dd` day keys and the string order that stands for the source's `Date` comparisons. On well-formed keys that order is chronological. Proved to be a strict total order.
- **GoalGraph** (`goal_graph.dfy`): node data, todos, nodes, edges, the `e<a>-<b>` edge id, and `find` by id.
- **Setters** (`setters.dfy`): the six setters of `state.ts`. Each is a function on the graph's value. The `Graph` class holds the session's nodes and edges and a log of the `upsertDailyGoal` calls it fires; its methods are proved to run those functions.
- **RowStore** (`row_store.dfy`): the row adapter of `supabase.ts`:
  - candidate-row construction;
  - the read, compare, then write-only-if-different upsert;
  - fetch, date-ordered list and delete, over a `Store` class whose table is a map.
- **InitialLoad** (`initial_load.dfy`): the load effect of `useDailyGoalsData.ts`:
  - the date sort;
  - the month counter, updated row by row in a loop;
  - day indices and grid positions;
  - the chain of edges between consecutive days.
- **CommandSchema** (`command_schema.dfy`): the action and agent-response schemas, as parsers of a JSON value that succeed exactly when the value satisfies the schema.
- **Canvas** (`canvas.dfy`): `handleNodesChange`. It prunes the edges that touch removed nodes and fires one delete call per removal and one upsert call per surviving changed node.
- **TodayContext** (`today_context.dfy`): the node for today, and the `todayGoal` context entry built from it.
- **Mentions** (`mentions.dfy`): the mention labels of nodes and edges.
- **AgentCalls**, **ChatWorkflow**, **Voice** (`agent_calls.dfy`, `chat_workflow.dfy`, `voice.dfy`): the two backend endpoints. These are the chat workflow's steps with their stream events, and the two voice routes with their events and HTTP answers.
- **GraphLaws** (`graph_laws.dfy`): laws that connect the pieces:
  - createDayNode run in date order builds the same chain as the initial load;
  - the two predecessor rules agree on nodes keyed by their own day, and differ on a two-node example otherwise;
  - updateGoal twice is updateGoal once, and the second persist writes nothing;
  - saving a day and loading it back;
  - the labels of the loaded chain's edges.

Clocks, random numbers, fresh ids, the language model, the transcriber and the database client's error outcomes are all parameters. Each is a value, a function or a flag, passed to the member that uses it.

Three places where the code does something other than its own comments suggest, or where its behaviour is easy to misread; the model follows the code:

- **The predecessor rule.** The comment above `createDayNode`'s link (`state.ts:51`) says the new day is connected to the previous latest node chronologically. The code instead takes the earlier-dated node with the greatest id (`state.ts:52-54`). Only `updateGoal` sorts by date (`state.ts:187-189`), Its comparator returns 1 for equal dates in both argument orders, so the language leaves the order of ties to the engine. V8's TimSort leaves them in list order, so `updateGoal` takes the first of them; the model follows V8. `PredecessorRulesAgree` shows the two rules coincide when every node's id is its own day key. `PredecessorRulesDiffer` gives two nodes on which they part.
- **Failed agent calls in the chat step.** The chat step writes `update_begin` and then calls the agent with no catch around the call (`dailyGoalChatWorkflow.ts:44-53`). A failing agent call therefore ends the step with its error, and `update_begin` is the only event written.
- **Action-less responses.** The comment above the response schema (`chatWorkflowTypes.ts:26-27`) says a response is either a plain chat message or a message with an action. The schema itself requires the action (`chatWorkflowTypes.ts:28-31`), so a plain message is rejected.

## Model

| member | source | states |
|---|---|---|
| DayKeys.BeforeIrreflexive | src/app/cedar-os/daily-goals/state.ts:53 | no day is before itself |
| DayKeys.BeforeTransitive | src/app/cedar-os/daily-goals/state.ts:53 | the day order is transitive |
| DayKeys.BeforeTotal | src/app/cedar-os/daily-goals/state.ts:188-189 | any two distinct days are ordered one way or the other |
| DayKeys.BeforeAsymmetric | src/app/cedar-os/daily-goals/state.ts:188-189 | the day order never holds both ways |
| DayKeys.Before | src/app/cedar-os/daily-goals/state.ts:53 | JavaScript's `<` on strings, lexicographic; on ASCII day keys it compares the same units as UTF-16; its order laws are the four lemmas above |
| DayKeys.Slice | src/components/daily-goals/useDailyGoalsData.ts:22 | `slice(0, n)` is the prefix of length n, or the whole of a shorter string |
| DayKeys.MonthKey | src/components/daily-goals/useDailyGoalsData.ts:22 | the month key `slice(0, 7)` of a day key, the prefix Slice states |
| GoalGraph.FindById | src/app/cedar-os/daily-goals/state.ts:155 | `find` by id returns the first node carrying the id, and nothing exactly when no node carries it |
| GoalGraph.FindByIdAt | src/app/cedar-os/daily-goals/mentions.ts:30 | a node with the id and no earlier match is what `find` returns |
| GoalGraph.EdgeId | src/app/cedar-os/daily-goals/state.ts:59 | the edge id `e<source>-<target>` every link-creating site builds (also `state.ts:194` and `useDailyGoalsData.ts:50`); stated through InitialLoad.ChainEdges and GraphLaws.ChainEdgeLabels |
| Setters.GreatestEarlierId | src/app/cedar-os/daily-goals/state.ts:52-54 | createDayNode's predecessor exists exactly when some node is dated before the new day, and it is the greatest id among those nodes |
| Setters.DayNode | src/app/cedar-os/daily-goals/state.ts:36-46 | the node createDayNode builds: id and date are the day, the given goal, not completed, no summary, no todos; stated through Setters.AfterCreateDayNode |
| Setters.LatestEarlier | src/app/cedar-os/daily-goals/state.ts:187-189 | updateGoal's predecessor exists exactly when some node is dated before the new day; no earlier-dated node has a later date; and among nodes sharing that latest date it is the first in list order, where V8's TimSort leaves ties under this comparator |
| Setters.FirstLatestUnique | src/app/cedar-os/daily-goals/state.ts:187-189 | at most one position is the first among the latest earlier-dated nodes, so updateGoal's choice of predecessor is determined |
| Setters.FirstLatestShift | src/app/cedar-os/daily-goals/state.ts:187-189 | the first latest earlier node of the tail stays first when the head is not dated earlier, or is dated before it |
| Setters.AfterCreateDayNode | src/app/cedar-os/daily-goals/state.ts:31-66 | the old nodes are kept and one node is appended even when the id exists: id and date are the day, the goal is given, it is not completed, has no todos and no summary; one edge from the greatest earlier id to the day is appended, or none when no node is earlier |
| Setters.UpdateWhere | src/app/cedar-os/daily-goals/state.ts:158-160 | the `map` keeps length, ids and positions, updates the data of the matching nodes only, and is the identity when no node matches |
| Setters.WithSummary | src/app/cedar-os/daily-goals/state.ts:76-83 | only the summary of the matching nodes changes, to the given text; an unknown id changes nothing |
| Setters.WithTodo | src/app/cedar-os/daily-goals/state.ts:92-100 | each matching node gets one more todo at the end, not completed, with a fresh id and the text; earlier todos and other nodes are untouched; an unknown id changes nothing |
| Setters.CompleteTodo | src/app/cedar-os/daily-goals/state.ts:119 | the same todos in the same order; a todo is completed afterwards exactly when it was before or its id matches; an unknown todo id changes nothing |
| Setters.WithTodoCompleted | src/app/cedar-os/daily-goals/state.ts:110-124 | only the todo lists of the matching nodes change, by CompleteTodo; an unknown day id changes nothing |
| Setters.WithGoalCompleted | src/app/cedar-os/daily-goals/state.ts:130-136 | only the completed flag of the matching nodes changes, to true; an unknown id changes nothing |
| Setters.Merge | src/app/cedar-os/daily-goals/state.ts:159 | every field the partial gives wins, and todos are replaced whole; every field it leaves out keeps its old value |
| Setters.NewGoalData | src/app/cedar-os/daily-goals/state.ts:165-181 | the new day's date is the partial's non-empty date, else the id; goal defaults to '', completed to false, todos to []; summary is the partial's |
| Setters.AfterUpdateGoal | src/app/cedar-os/daily-goals/state.ts:150-205 | existing id: the partial is merged into every matching node, edges are unchanged, and the first match merged with the partial is persisted. Absent id: one node with the new data is appended and persisted, and linked from the latest earlier day (the first such node in list order when several share that date), or not linked when none is earlier |
| Setters.Graph.constructor | src/app/cedar-os/daily-goals/state.ts:7-12 | the session starts with the given nodes and edges and no persist calls |
| Setters.Graph.CreateDayNode | src/app/cedar-os/daily-goals/state.ts:31-66 | the new state is AfterCreateDayNode of the old, and nothing is persisted |
| Setters.Graph.SetGoalSummary | src/app/cedar-os/daily-goals/state.ts:76-83 | nodes become WithSummary of the old nodes; edges unchanged; nothing persisted |
| Setters.Graph.AddTodo | src/app/cedar-os/daily-goals/state.ts:92-100 | nodes become WithTodo of the old nodes; edges unchanged; nothing persisted |
| Setters.Graph.MarkTodoComplete | src/app/cedar-os/daily-goals/state.ts:110-124 | nodes become WithTodoCompleted of the old nodes; edges unchanged; nothing persisted |
| Setters.Graph.MarkGoalComplete | src/app/cedar-os/daily-goals/state.ts:130-136 | nodes become WithGoalCompleted of the old nodes; edges unchanged; nothing persisted |
| Setters.Graph.UpdateGoal | src/app/cedar-os/daily-goals/state.ts:150-205 | the new state is AfterUpdateGoal's graph, and exactly one persist call, with its data, is logged |
| Setters.MergeIdempotent | src/app/cedar-os/daily-goals/state.ts:159 | merging the same partial twice is merging it once |
| RowStore.Candidate | src/app/cedar-os/daily-goals/supabase.ts:33-40 | the row's id and date are both the day key; goal, completed and todos are copied; an absent summary is stored as null; the row has no created_at |
| RowStore.InsertByDate | src/components/daily-goals/useDailyGoalsData.ts:15 | inserting into a date-sorted list keeps it sorted and adds exactly that row |
| RowStore.SortByDate | src/components/daily-goals/useDailyGoalsData.ts:15 | the result is in ascending date order and is a permutation of the rows |
| RowStore.SortedPermutationUnique | src/components/daily-goals/useDailyGoalsData.ts:15 | when no two different rows share a date, two date-sorted permutations of the same rows are equal, whatever the sort did with ties |
| RowStore.AnySortIsSortByDate | src/components/daily-goals/useDailyGoalsData.ts:15 | when no two different rows share a date, any date-sorted permutation of the rows, such as the client's `rows.sort`, is SortByDate's |
| RowStore.UpsertSpec | src/app/cedar-os/daily-goals/supabase.ts:32-54 | a stored row deep-equal to the candidate is returned with no write; otherwise the candidate's columns are written at its key, keeping a stored row's created_at (or stamping a new row), and the written row is returned; when the write fails the table is unchanged and null is returned |
| RowStore.Written | src/app/cedar-os/daily-goals/supabase.ts:48 | the row an upsert leaves: every candidate column as given, created_at kept from the stored row, or the insert's stamp when there is none |
| RowStore.Store.constructor | src/app/cedar-os/daily-goals/supabase.ts:9-12 | the store starts with the given table, each row under its own id |
| RowStore.Store.Fetch | src/app/cedar-os/daily-goals/supabase.ts:56-61 | the day's row, or null exactly when the row is absent or the query fails |
| RowStore.Store.Upsert | src/app/cedar-os/daily-goals/supabase.ts:32-54 | the new table and the result are UpsertSpec's; every row stays under its own id |
| RowStore.Store.List | src/app/cedar-os/daily-goals/supabase.ts:63-67 | on error no rows; otherwise every row of the table once, in ascending date order, and nothing else |
| RowStore.Store.Delete | src/app/cedar-os/daily-goals/supabase.ts:69-73 | true exactly when the query reports no error, and then the key is gone; otherwise the table is unchanged |
| RowStore.StoredCreatedAtAlwaysRewrites | src/app/cedar-os/daily-goals/supabase.ts:25 | a stored row carrying created_at never deep-equals the candidate, so the write is always sent |
| RowStore.StampedTableAlwaysWrites | src/app/cedar-os/daily-goals/supabase.ts:25-48 | on a table whose rows all carry created_at, every upsert sends its write, and the table stays stamped |
| RowStore.UpsertTwiceWritesOnce | src/app/cedar-os/daily-goals/supabase.ts:42-46 | on a table without created_at, after a successful upsert the same upsert returns the stored row and writes nothing |
| InitialLoad.SameMonthMembers | src/components/daily-goals/useDailyGoalsData.ts:27-28 | the month filter keeps exactly the rows of that month |
| InitialLoad.SameMonth | src/components/daily-goals/useDailyGoalsData.ts:27-28 | the month filter, keeping row order and never more rows than given; its members are stated by SameMonthMembers |
| InitialLoad.MonthIndex | src/components/daily-goals/useDailyGoalsData.ts:26 | a row's month index is the position of its month in order of first appearance (IndexOf's contract: the first position holding that month); see MonthIndexAtFirstAppearance |
| InitialLoad.DayIndex | src/components/daily-goals/useDailyGoalsData.ts:27-29 | a row's day index is where its id is first found among its month's rows; see DayIndexFound and DayIndexCountsEarlierDays |
| InitialLoad.GridNode | src/components/daily-goals/useDailyGoalsData.ts:31-42 | the node of a row at grid cell (dayIdx, monthIdx): position (150 + 300·dayIdx, 100 + 250·monthIdx) and RowData's data; stated through BuildNodes |
| InitialLoad.RowNode | src/components/daily-goals/useDailyGoalsData.ts:20-43 | row i's node, at its own month and day index; BuildNodes states the loop builds exactly these |
| InitialLoad.FindIndexById | src/components/daily-goals/useDailyGoalsData.ts:29 | `findIndex` is the index of the first row with the id, or -1 exactly when no row has it |
| InitialLoad.Months | src/components/daily-goals/useDailyGoalsData.ts:17-24 | every row's month is listed, each month once |
| InitialLoad.RowData | src/components/daily-goals/useDailyGoalsData.ts:35-41 | date, goal, completed and todos are copied; the summary is absent exactly when it is null or empty, and kept otherwise |
| InitialLoad.MonthTableStep | src/components/daily-goals/useDailyGoalsData.ts:24-26 | reading a row keeps the counter's invariant: a counted month keeps its index, and a new month gets the current count, which is its index in order of first appearance |
| InitialLoad.BuildNodes | src/components/daily-goals/useDailyGoalsData.ts:17-43 | one node per sorted row, in order, each with the row's id, its grid position (150 + 300·dayIdx, 100 + 250·monthIdx) and its data |
| InitialLoad.ChainEdges | src/components/daily-goals/useDailyGoalsData.ts:45-57 | k nodes give k-1 edges, edge i running from node i to node i+1 with id `e<a>-<b>` |
| InitialLoad.LoadGraph | src/components/daily-goals/useDailyGoalsData.ts:12-60 | no rows leave nodes and edges empty; otherwise one node per row of the date-sorted rows, in ascending date order, chained by ChainEdges; the rows' tie order is SortByDate's (see Left out) |
| InitialLoad.MonthIndexAtFirstAppearance | src/components/daily-goals/useDailyGoalsData.ts:17-26 | the row where a month first appears gets the number of months seen before it: indices 0, 1, 2, … in order of first appearance |
| InitialLoad.DayIndexFound | src/components/daily-goals/useDailyGoalsData.ts:27-29 | every day index is a real index into the rows of its month, never -1 |
| InitialLoad.DayIndexCountsEarlierDays | src/components/daily-goals/useDailyGoalsData.ts:26-29 | with distinct ids, a row's day index is the number of rows of its month before it |
| CommandSchema.ParseSetterKey | src/backend/src/mastra/workflows/chatWorkflowTypes.ts:9-17 | exactly the six listed setter names are accepted, each as the key written with that name |
| CommandSchema.SetterKeyRoundTrip | src/backend/src/mastra/workflows/chatWorkflowTypes.ts:9-17 | every setter key reads back from its name |
| CommandSchema.ParseAction | src/backend/src/mastra/workflows/chatWorkflowTypes.ts:19-24 | an action validates exactly when type is "action", stateKey is "nodes", setterKey is a listed name and args is an array; the result carries that key and those args |
| CommandSchema.ActionRoundTrip | src/backend/src/mastra/workflows/chatWorkflowTypes.ts:19-24 | every action written as JSON validates back to itself |
| CommandSchema.ActionIgnoresUnknownKeys | src/backend/src/mastra/workflows/chatWorkflowTypes.ts:19-24 | keys the schema does not name do not affect validation |
| CommandSchema.UnknownSetterRejected | src/backend/src/mastra/workflows/chatWorkflowTypes.ts:22 | the setter key "bogusSetter" is rejected whatever the other fields say |
| CommandSchema.NonArrayArgsRejected | src/backend/src/mastra/workflows/chatWorkflowTypes.ts:23 | args that are not an array are rejected |
| CommandSchema.ParseAgentResponse | src/backend/src/mastra/workflows/chatWorkflowTypes.ts:28-31 | a response validates exactly when it has a string content and a valid action, and the result carries both |
| CommandSchema.AgentResponseRoundTrip | src/backend/src/mastra/workflows/chatWorkflowTypes.ts:28-31 | every response written as JSON validates back to itself |
| CommandSchema.MessageOnlyRejected | src/backend/src/mastra/workflows/chatWorkflowTypes.ts:26-31 | a plain message without an action does not validate |
| Canvas.RemovedIds | src/components/daily-goals/DailyGoalCanvas.tsx:39-42 | the removed ids: each id occurs exactly as often as the batch has a remove change for it, and never more ids than changes; RemovedIdsAppend gives the batch order |
| Canvas.RemovedIdsMembers | src/components/daily-goals/DailyGoalCanvas.tsx:39-42 | an id is removed exactly when the batch has a remove change for it |
| Canvas.PrunedMembers | src/components/daily-goals/DailyGoalCanvas.tsx:43-45 | after pruning, no edge has a removed id as source or target, and every edge touching none of them is kept |
| Canvas.PrunedAppend | src/components/daily-goals/DailyGoalCanvas.tsx:43-45 | pruning keeps the edges' relative order |
| Canvas.Pruned | src/components/daily-goals/DailyGoalCanvas.tsx:43-45 | the edge filter never adds edges; what it keeps is stated by PrunedMembers |
| Canvas.DeleteCalls | src/components/daily-goals/DailyGoalCanvas.tsx:48 | one delete call per removed id, in order |
| Canvas.UpsertFor | src/components/daily-goals/DailyGoalCanvas.tsx:55-58 | a change upserts exactly when it is a non-removal change with an id whose node is present afterwards, and then once, with that node's data |
| Canvas.UpsertCallsBound | src/components/daily-goals/DailyGoalCanvas.tsx:55-59 | at most one upsert per change that is not a removal, each carrying the data of a node present after the changes |
| Canvas.UpsertCalls | src/components/daily-goals/DailyGoalCanvas.tsx:55-59 | the upsert calls of a batch in batch order, at most one per change; bounded further by UpsertCallsBound |
| Canvas.FireDeletes | src/components/daily-goals/DailyGoalCanvas.tsx:48 | the loop fires exactly DeleteCalls of the removed ids |
| Canvas.FireUpserts | src/components/daily-goals/DailyGoalCanvas.tsx:55-59 | the loop fires exactly the batch's upsert calls, in batch order |
| Canvas.Canvas.constructor | src/components/daily-goals/DailyGoalCanvas.tsx:30-31 | the canvas starts with the given nodes and edges and no persistence calls |
| Canvas.Canvas.HandleNodesChange | src/components/daily-goals/DailyGoalCanvas.tsx:37-65 | nodes become the applied list; edges are pruned of the removed ids when there are removals and untouched otherwise; the calls log grows by the delete calls and then the upsert calls |
| TodayContext.FindByDay | src/app/cedar-os/daily-goals/context.ts:19 | the first node dated today, and nothing exactly when no node is |
| TodayContext.TodayNodes | src/app/cedar-os/daily-goals/context.ts:17-22 | at most one node; empty exactly when no node is dated today; otherwise a node dated today |
| TodayContext.Entry | src/app/cedar-os/daily-goals/context.ts:30-37 | id, day key, goal, completed and todos are copied, and a missing summary becomes '' |
| TodayContext.ContextOf | src/app/cedar-os/daily-goals/context.ts:26-38 | an empty list gives an empty object; otherwise the only key is todayGoal, with one entry per node |
| TodayContext.ContextHasTodayIffNodeToday | src/app/cedar-os/daily-goals/context.ts:17-38 | the context has a todayGoal entry exactly when some node is dated today, and it is the single entry of the first such node |
| TodayContext.DailyGoalsContext.constructor | src/app/cedar-os/daily-goals/context.ts:12-15 | the selected nodes and today's nodes both start empty |
| TodayContext.DailyGoalsContext.Refresh | src/app/cedar-os/daily-goals/context.ts:17-22 | today's nodes become TodayNodes of the node list, and the selection is unchanged |
| TodayContext.DailyGoalsContext.SetSelectedNodes | src/app/cedar-os/daily-goals/context.ts:75 | the selection becomes the given nodes; today's nodes are unchanged |
| TodayContext.DailyGoalsContext.Context | src/app/cedar-os/daily-goals/context.ts:24-38 | the object subscribed to the chat input is ContextOf today's nodes; ContextHasTodayIffNodeToday states what it holds |
| Mentions.EndLabel | src/app/cedar-os/daily-goals/mentions.ts:30-33 | an edge end is labelled by the day key of the first node with its id when that label is not empty, and by the raw id when there is no such node or its label is empty |
| Mentions.NodeLabel | src/app/cedar-os/daily-goals/mentions.ts:16-17 | a node's mention label is its day key; EndLabel and EdgeLabelSplits state its use |
| Mentions.EdgeLabel | src/app/cedar-os/daily-goals/mentions.ts:28-34 | an edge's mention label is its source label, the arrow, then its target label; stated by EdgeLabelSplits |
| Mentions.EdgeLabelSplits | src/app/cedar-os/daily-goals/mentions.ts:28-34 | an edge label is the source label, the arrow as written in the file, then the target label, and splits back at its first arrow when the source label is ASCII |
| Mentions.FirstArrow | src/app/cedar-os/daily-goals/mentions.ts:34 | the position of the first arrow in a text, or its length when there is none |
| ChatWorkflow.BuildMessages | src/backend/src/mastra/workflows/dailyGoalChatWorkflow.ts:22-34 | exactly one user message holding the prompt, and every input field kept |
| ChatWorkflow.AgentResult | src/backend/src/mastra/workflows/dailyGoalChatWorkflow.ts:48-60 | the step succeeds exactly when the agent call succeeds and its object satisfies the response schema; the output then carries the response's content and action and the call's usage |
| ChatWorkflow.AgentRequest | src/backend/src/mastra/workflows/dailyGoalChatWorkflow.ts:48-53 | the generate call's messages, sampling options and response schema; stated by AgentSeesPromptOnly |
| ChatWorkflow.CallAgent | src/backend/src/mastra/workflows/dailyGoalChatWorkflow.ts:36-69 | the result is AgentResult. With a controller the events are update_begin, the returned output, update_complete, or only update_begin when the call fails. Without a controller there are no events |
| ChatWorkflow.RunWorkflow | src/backend/src/mastra/workflows/dailyGoalChatWorkflow.ts:71-79 | callAgent runs on buildMessages' output: the result is AgentResult's; streaming, the events are update_begin, the output, update_complete on success and update_begin alone on failure; not streaming, none |
| ChatWorkflow.AgentSeesPromptOnly | src/backend/src/mastra/workflows/dailyGoalChatWorkflow.ts:42-53 | the agent is sent the prompt as the only message, with the input's temperature and maxTokens and the response schema |
| ChatWorkflow.MessageOnlyAnswerFails | src/backend/src/mastra/workflows/dailyGoalChatWorkflow.ts:48-55 | an answer with content but no action makes the step fail |
| ChatWorkflow.WellFormedAnswerIsStreamed | src/backend/src/mastra/workflows/dailyGoalChatWorkflow.ts:55-62 | an answer written from a valid response succeeds with that content and action |
| Voice.StreamEvents | src/backend/src/mastra/voice.ts:37-59 | one or two events, never stage updates. A form that cannot be read gives its error; missing audio gives `audio required`; a failed transcription gives its error; a failed agent call gives the transcription then its error; when every call succeeds, the transcription then the agent's text, the agent having been sent that transcription |
| Voice.PostResponse | src/backend/src/mastra/voice.ts:13-30 | 400 with "audio required" exactly when the audio is missing; 500 with the thrown message when reading the form, the transcription or the agent call fails; 200 with the transcription and the agent's text when every call succeeds |
| Voice.VoiceRequest | src/backend/src/mastra/voice.ts:23-24 | the request both routes send: the transcription as the only user message, temperature 0.7, maxTokens 500, no response schema (also `voice.ts:50-53`); stated through StreamEvents and PostResponse |
| Voice.HandleVoiceStream | src/backend/src/mastra/voice.ts:34-61 | the handler writes exactly StreamEvents |
| Voice.HandleVoice | src/backend/src/mastra/voice.ts:13-30 | the handler answers exactly PostResponse |
| Voice.RoutesAgree | src/backend/src/mastra/voice.ts:13-61 | the stream succeeds with a transcription and a response exactly when `/voice` answers 200 with the same texts; otherwise its final error carries `/voice`'s error message |
| Voice.MissingAudioStream | src/backend/src/mastra/voice.ts:41 | missing audio gives the single event `error: audio required` |
| Voice.OneErrorAtTheEnd | src/backend/src/mastra/voice.ts:38-58 | no event before the last one is an error |
| GraphLaws.PredecessorRulesAgree | src/app/cedar-os/daily-goals/state.ts:52-54 | on nodes keyed by their own day, createDayNode's and updateGoal's predecessor rules pick the same day |
| GraphLaws.PredecessorRulesDiffer | src/app/cedar-os/daily-goals/state.ts:187-189 | a node keyed 3 but dated 1 and a node keyed and dated 2: day 5 is linked from 3 by createDayNode but from 2 by updateGoal |
| GraphLaws.GreatestEarlierIsLast | src/app/cedar-os/daily-goals/state.ts:52-54 | among nodes keyed by increasing days, a later day's predecessor is the last node |
| GraphLaws.ChainEdgesSnoc | src/components/daily-goals/useDailyGoalsData.ts:45-57 | appending a node extends the chain by one edge from the former last node |
| GraphLaws.CreateLaterDay | src/app/cedar-os/daily-goals/state.ts:31-66 | creating a day later than every day so far keeps the graph a date-ordered chain |
| GraphLaws.CreateInOrderBuildsChain | src/app/cedar-os/daily-goals/state.ts:31-66 | creating days in increasing order appends one node per day and links them exactly as the initial load chains date-sorted rows |
| GraphLaws.UpdateWhereFixed | src/app/cedar-os/daily-goals/state.ts:158-160 | an update that leaves the matching nodes' data as it is changes nothing |
| GraphLaws.FindAfterUpdateWhere | src/app/cedar-os/daily-goals/state.ts:155-160 | after an update, `find` returns the updated first match |
| GraphLaws.UpdateGoalTwiceExisting | src/app/cedar-os/daily-goals/state.ts:157-162 | on an existing day, a second identical updateGoal leaves the graph as it is and persists the same data |
| GraphLaws.UpdateGoalTwiceNew | src/app/cedar-os/daily-goals/state.ts:163-204 | on a new day and for a partial without a date, a second identical updateGoal finds the created day and changes nothing |
| GraphLaws.UpdateGoalTwice | src/app/cedar-os/daily-goals/state.ts:150-205 | updateGoal is idempotent on the graph and on the data it persists, on an existing day or for a partial without a date |
| GraphLaws.UpdateGoalTwicePersistsOnce | src/app/cedar-os/daily-goals/state.ts:162 | on a table without created_at and for a partial without a date, after the first persist was written, the second updateGoal's persist writes nothing |
| GraphLaws.SaveThenLoad | src/components/daily-goals/useDailyGoalsData.ts:39 | a day saved as a row and loaded back is unchanged exactly when its summary is not the empty string |
| GraphLaws.FindUnique | src/app/cedar-os/daily-goals/mentions.ts:30-31 | a node with a unique id is what `find` returns for that id |
| GraphLaws.ChainEdgeLabels | src/app/cedar-os/daily-goals/mentions.ts:28-34 | each chain edge between days with distinct ids is labelled with its two days around the arrow |

## Left out

- Random node positions (`state.ts:39`, `state.ts:174`) are a `Position` parameter of the two day-creating setters.
- The fresh todo id (`uuidv4`, `state.ts:97`) is a function from the node's index to an id, passed to `AddTodo`.
- JavaScript `Date` values are not modelled: parsing, time zones, `toISOString().slice(0, 10)`, invalid dates. A date is its day key, and `Date` comparisons are the string order of day keys. That order is chronological only on well-formed `yyyy-mm-dd` keys.
- Setters.Merge: a partial that explicitly sets a field to `undefined` or `null` is not modelled; a field is either given or left out.
- Setters.Graph.UpdateGoal: on the existing-day path, a partial's `date` given as a string is merged raw (`state.ts:159`). The later `toISOString` call on it (`supabase.ts:34`) then fails. The model treats every date as a day key, so it does not capture that failure.
- The reactflow calls `applyNodeChanges`, `addEdge` and the `onConnect` handler are not visible. `HandleNodesChange` takes the list `applyNodeChanges` returns as a parameter.
- Canvas.Canvas.HandleNodesChange: the source hands the edge and node updates to the framework as updater functions, which may run later. The model applies them at once, in source order, so the deletes are logged before the upserts.
- Asynchrony is not modelled. The `void upsertDailyGoal` and `void deleteDailyGoal` calls are fire-and-forget. The adapter's read-then-write has no guard against a concurrent writer. The model records the calls as an ordered log, and each adapter call is one step.
- RowStore.Store.Upsert: the value `upsert(row).single()` hands back depends on the database client and is discarded by every caller (`state.ts:162`, `state.ts:203`); the model chooses to return the row the table holds after the write. The database's own default for `created_at` on an insert is the `stamp` parameter; `None` models a table without that column.
- The database client's construction, environment variables and network are not modelled (`supabase.ts:1-12`). The table is an in-memory map, and each query's error outcome is a flag.
- RowStore.SortByDate: keeps rows that share a date in list order. The client's comparator (`useDailyGoalsData.ts:15`) returns -1 for equal dates in both argument orders, and V8's TimSort then takes a run of equal dates as descending and reverses it. The database order by date does not fix ties either.
- InitialLoad.LoadGraph: its nodes, day indices and edges follow SortByDate's tie order, which is the model's, not V8's. For two rows x and y on one date, V8 gives the nodes [y, x] and the edge `ey-x`, while the model gives [x, y] and `ex-y`. A tie needs two rows with one date under different ids. upsertDailyGoal never writes such rows, because it keys each row by its date (`supabase.ts:33-40`). When no two different rows share a date, `RowStore.AnySortIsSortByDate` shows that every date-sorted permutation is SortByDate's, so LoadGraph's result does not depend on the sort.
- The in-place `rows.sort` is modelled as the function `SortByDate` on the row sequence, with the sorted rows as a new value.
- Rendering is not modelled: `DailyGoalNode.tsx` beyond its data types, `page.tsx`, `layout.tsx`, icons and colours.
- The framework glue is not modelled: `useRegisterState`, `subscribeInputContext`, `useStateBasedMentionProvider`, `hooks.ts`, and React state and effects. The model keeps only what their callbacks compute.
- The agent's instructions (`dailyGoalAgent.ts`), the server configuration (`index.ts`) and the server-sent-event stream construction are not modelled. The language model and the transcriber are parameters: each is the outcome of a call, a value or a thrown error.
- ChatWorkflow.CallAgent: the `systemPrompt` input is read but not used by the source; the model carries it without effect. The output-schema check Mastra may apply to the returned value is not modelled.
- The `usage` report of a generation is kept as an opaque JSON value.
- Voice.HandleVoice: the form field's content is the audio bytes or absent. A non-file `audio` field, the webm file type and buffering are not modelled. A form that cannot be read is a thrown error.
- The cancellation of a stream before it completes is not modelled.
- Mentions.EdgeLabelSplits: proved only for source labels made of ASCII characters, which day keys and ids are.
- GraphLaws.UpdateGoalTwice: promises nothing for a new day with a dated partial. The agent sends that date as a JSON string. The first run stores `new Date(partial.date)` (`state.ts:165-168`). The second, identical run finds the day and merges the raw string into its date (`state.ts:159`), so the source's graph changes. That run's persist then throws (`supabase.ts:34`). With the empty string the first run instead falls back to the id. The model's dates are all day keys, so it cannot tell a `Date` from its string.
- GraphLaws.UpdateGoalTwiceNew: requires a partial without a date, for the same reason as GraphLaws.UpdateGoalTwice.
- GraphLaws.UpdateGoalTwicePersistsOnce: requires a partial without a date. With a string date the source's persist throws at `supabase.ts:34` on an existing day, and on the second run for a new day. The model does not capture that throw.
