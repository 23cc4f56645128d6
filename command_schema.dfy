/**
 * The schemas the chat agent's structured output is validated against
 * (chatWorkflowTypes.ts): an action names one of the six daily-goal setters,
 * targets the `nodes` state and carries an array of unchecked arguments; the
 * agent's final response carries a string `content` and such an action.
 *
 * Validation is modelled as parsing a JSON value: a parse succeeds exactly
 * when the value satisfies the schema, and yields the typed value with the
 * unknown keys of each object dropped, as a non-strict object schema does.
 */
module CommandSchema {
  import opened Wrappers

  datatype Json =
    | JNull
    | JBool(b: bool)
    | JNumber(n: real)
    | JString(s: string)
    | JArray(items: seq<Json>)
    | JObject(fields: map<string, Json>)

  /** The setter keys the action schema admits. */
  datatype SetterKey =
    | CreateDayNode
    | SetGoalSummary
    | AddTodo
    | MarkTodoComplete
    | MarkGoalComplete
    | UpdateGoal

  /** The name each setter key is written with. */
  function SetterName(k: SetterKey): string {
    match k
    case CreateDayNode => "createDayNode"
    case SetGoalSummary => "setGoalSummary"
    case AddTodo => "addTodo"
    case MarkTodoComplete => "markTodoComplete"
    case MarkGoalComplete => "markGoalComplete"
    case UpdateGoal => "updateGoal"
  }

  /** The enumeration of setter names, in the order the schema lists them. */
  const SetterNames: seq<string> :=
    ["createDayNode", "setGoalSummary", "addTodo", "markTodoComplete", "markGoalComplete", "updateGoal"]

  /** Reading a setter name: exactly the six listed names are accepted, each as its own key. */
  function ParseSetterKey(s: string): (r: Option<SetterKey>)
    ensures r.Some? <==> s in SetterNames
    ensures r.Some? ==> SetterName(r.value) == s
  {
    if s == "createDayNode" then Some(CreateDayNode)
    else if s == "setGoalSummary" then Some(SetGoalSummary)
    else if s == "addTodo" then Some(AddTodo)
    else if s == "markTodoComplete" then Some(MarkTodoComplete)
    else if s == "markGoalComplete" then Some(MarkGoalComplete)
    else if s == "updateGoal" then Some(UpdateGoal)
    else None
  }

  /** Every setter key survives being written out and read back. */
  lemma SetterKeyRoundTrip(k: SetterKey)
    ensures ParseSetterKey(SetterName(k)) == Some(k)
  {
  }

  /** A validated action: the `type` and `stateKey` literals carry no information. */
  datatype Action = Action(setter: SetterKey, args: seq<Json>)

  /** The field `key` of an object, if the value is an object that has it. */
  function Field(j: Json, key: string): Option<Json> {
    if j.JObject? && key in j.fields then Some(j.fields[key]) else None
  }

  /** The four conditions the action schema places on a value. */
  ghost predicate IsActionJson(j: Json) {
    && Field(j, "type") == Some(JString("action"))
    && Field(j, "stateKey") == Some(JString("nodes"))
    && (var k := Field(j, "setterKey"); k.Some? && k.value.JString? && k.value.s in SetterNames)
    && (var a := Field(j, "args"); a.Some? && a.value.JArray?)
  }

  /** `ActionResponseSchema.safeParse`. */
  function ParseAction(j: Json): (r: Option<Action>)
    ensures r.Some? <==> IsActionJson(j)
    ensures r.Some? ==> Some(JString(SetterName(r.value.setter))) == Field(j, "setterKey")
    ensures r.Some? ==> Some(JArray(r.value.args)) == Field(j, "args")
  {
    if Field(j, "type") != Some(JString("action")) then None
    else if Field(j, "stateKey") != Some(JString("nodes")) then None
    else
      match (Field(j, "setterKey"), Field(j, "args"))
      case (Some(JString(name)), Some(JArray(args))) =>
        (match ParseSetterKey(name)
         case Some(k) => Some(Action(k, args))
         case None => None)
      case _ => None
  }

  /** The JSON the agent writes for an action. */
  function ActionJson(a: Action): Json {
    JObject(map[
      "type" := JString("action"),
      "stateKey" := JString("nodes"),
      "setterKey" := JString(SetterName(a.setter)),
      "args" := JArray(a.args)])
  }

  /** Every action survives being written as JSON and validated again. */
  lemma ActionRoundTrip(a: Action)
    ensures ParseAction(ActionJson(a)) == Some(a)
  {
    SetterKeyRoundTrip(a.setter);
  }

  /** Keys the action schema does not name are ignored by validation. */
  lemma ActionIgnoresUnknownKeys(fields: map<string, Json>, key: string, v: Json)
    requires key !in {"type", "stateKey", "setterKey", "args"}
    ensures ParseAction(JObject(fields[key := v])) == ParseAction(JObject(fields))
  {
    var j, j' := JObject(fields[key := v]), JObject(fields);
    assert Field(j, "type") == Field(j', "type");
    assert Field(j, "stateKey") == Field(j', "stateKey");
    assert Field(j, "setterKey") == Field(j', "setterKey");
    assert Field(j, "args") == Field(j', "args");
  }

  /** A setter name outside the enumeration is rejected, whatever the other fields say. */
  lemma UnknownSetterRejected(fields: map<string, Json>)
    requires "setterKey" in fields && fields["setterKey"] == JString("bogusSetter")
    ensures ParseAction(JObject(fields)) == None
  {
  }

  /** Arguments that are not an array are rejected. */
  lemma NonArrayArgsRejected(fields: map<string, Json>)
    requires "args" in fields && !fields["args"].JArray?
    ensures ParseAction(JObject(fields)) == None
  {
  }

  /** A validated agent response. */
  datatype AgentResponse = AgentResponse(content: string, action: Action)

  /** `ExecuteFunctionResponseSchema.safeParse`: a string content and a valid action, both required. */
  function ParseAgentResponse(j: Json): (r: Option<AgentResponse>)
    ensures r.Some? <==> (exists c :: Field(j, "content") == Some(JString(c)))
                         && (var a := Field(j, "action"); a.Some? && IsActionJson(a.value))
    ensures r.Some? ==> Field(j, "content") == Some(JString(r.value.content))
                        && ParseAction(Field(j, "action").value) == Some(r.value.action)
  {
    match (Field(j, "content"), Field(j, "action"))
    case (Some(JString(c)), Some(a)) =>
      (match ParseAction(a)
       case Some(act) => Some(AgentResponse(c, act))
       case None => None)
    case _ => None
  }

  /** The JSON of an agent response. */
  function AgentResponseJson(r: AgentResponse): Json {
    JObject(map["content" := JString(r.content), "action" := ActionJson(r.action)])
  }

  lemma AgentResponseRoundTrip(r: AgentResponse)
    ensures ParseAgentResponse(AgentResponseJson(r)) == Some(r)
  {
    ActionRoundTrip(r.action);
  }

  /** A plain chat message without an action does not validate: the schema has no action-less branch. */
  lemma MessageOnlyRejected(content: string)
    ensures ParseAgentResponse(JObject(map["content" := JString(content)])) == None
  {
  }
}
