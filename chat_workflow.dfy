/**
 * The chat workflow (dailyGoalChatWorkflow.ts): a first step wraps the prompt
 * into a one-message conversation, a second calls the agent with the
 * response schema and, when the request came with a stream controller,
 * brackets the output with two stage updates on the stream.
 */
module ChatWorkflow {
  import opened Wrappers
  import opened CommandSchema
  import opened AgentCalls

  /** The workflow input; `streaming` says whether a stream controller was passed. */
  datatype ChatInput = ChatInput(
    prompt: string,
    temperature: Option<real>,
    maxTokens: Option<int>,
    systemPrompt: Option<string>,
    streaming: bool)

  /** The first step's output: the input, spread, with the messages added. */
  datatype StepInput = StepInput(input: ChatInput, messages: seq<Message>)

  /** buildMessages: one user message holding the prompt; every input field is kept. */
  function BuildMessages(input: ChatInput): (r: StepInput)
    ensures r.input == input
    ensures |r.messages| == 1 && r.messages[0].role == User && r.messages[0].content == input.prompt
  {
    StepInput(input, [Message(User, input.prompt)])
  }

  /** What callAgent sends the agent: the messages, the sampling options, and the response schema. */
  function AgentRequest(step: StepInput): GenerateRequest {
    GenerateRequest(step.messages, step.input.temperature, step.input.maxTokens, true)
  }

  /**
   * The outcome of the agent call: its error, an error when the object does
   * not satisfy the response schema, or the content and action of the object.
   */
  function AgentResult(step: StepInput, agent: GenerateRequest -> Outcome<Generation>): (r: Outcome<ChatOutput>)
    ensures r.Success? <==> agent(AgentRequest(step)).Success?
                            && ParseAgentResponse(agent(AgentRequest(step)).value.obj).Some?
    ensures r.Success? ==> var resp := ParseAgentResponse(agent(AgentRequest(step)).value.obj).value;
                           r.value == ChatOutput(resp.content, Some(resp.action), agent(AgentRequest(step)).value.usage)
  {
    match agent(AgentRequest(step))
    case Failure(m) => Failure(m)
    case Success(g) =>
      (match ParseAgentResponse(g.obj)
       case Some(resp) => Success(ChatOutput(resp.content, Some(resp.action), g.usage))
       case None => Failure("structured output does not match the response schema"))
  }

  const UpdateBegin := StageUpdate("update_begin")
  const UpdateComplete := StageUpdate("update_complete")

  /**
   * callAgent, returning the step's outcome and the events it wrote to the
   * stream. With a controller: update_begin, then the output, then
   * update_complete; a failing agent call leaves only update_begin written,
   * since nothing catches its error. Without a controller nothing is written.
   */
  method CallAgent(step: StepInput, agent: GenerateRequest -> Outcome<Generation>)
    returns (result: Outcome<ChatOutput>, events: seq<StreamEvent>)
    ensures result == AgentResult(step, agent)
    ensures !step.input.streaming ==> events == []
    ensures step.input.streaming && result.Success? ==> events == [UpdateBegin, Payload(result.value), UpdateComplete]
    ensures step.input.streaming && result.Failure? ==> events == [UpdateBegin]
  {
    events := [];
    if step.input.streaming {
      events := events + [UpdateBegin];
    }
    var response := agent(AgentRequest(step));
    if response.Failure? {
      return Failure(response.message), events;
    }
    var parsed := ParseAgentResponse(response.value.obj);
    if parsed.None? {
      return Failure("structured output does not match the response schema"), events;
    }
    var out := ChatOutput(parsed.value.content, Some(parsed.value.action), response.value.usage);
    if step.input.streaming {
      events := events + [Payload(out)];
    }
    if step.input.streaming {
      events := events + [UpdateComplete];
    }
    result := Success(out);
  }

  /** The workflow: buildMessages, then callAgent on its output. */
  method RunWorkflow(input: ChatInput, agent: GenerateRequest -> Outcome<Generation>)
    returns (result: Outcome<ChatOutput>, events: seq<StreamEvent>)
    ensures result == AgentResult(BuildMessages(input), agent)
    ensures !input.streaming ==> events == []
    ensures input.streaming ==> |events| >= 1 && events[0] == UpdateBegin
    ensures input.streaming && result.Success? ==> events == [UpdateBegin, Payload(result.value), UpdateComplete]
    ensures input.streaming && result.Failure? ==> events == [UpdateBegin]
  {
    var step := BuildMessages(input);
    result, events := CallAgent(step, agent);
  }

  /** The agent is sent exactly the prompt, as the only message, with the input's sampling options. */
  lemma AgentSeesPromptOnly(input: ChatInput)
    ensures var req := AgentRequest(BuildMessages(input));
            && req.messages == [Message(User, input.prompt)]
            && req.temperature == input.temperature && req.maxTokens == input.maxTokens
            && req.structured
  {
  }

  /** An agent that answers with a message but no action makes the step fail: the schema has no action-less branch. */
  lemma MessageOnlyAnswerFails(input: ChatInput, agent: GenerateRequest -> Outcome<Generation>, content: string)
    requires agent(AgentRequest(BuildMessages(input))).Success?
    requires agent(AgentRequest(BuildMessages(input))).value.obj == JObject(map["content" := JString(content)])
    ensures AgentResult(BuildMessages(input), agent).Failure?
  {
    MessageOnlyRejected(content);
  }

  /** An answer written from a valid response reaches the stream unchanged. */
  lemma WellFormedAnswerIsStreamed(input: ChatInput, agent: GenerateRequest -> Outcome<Generation>, resp: AgentResponse)
    requires agent(AgentRequest(BuildMessages(input))).Success?
    requires agent(AgentRequest(BuildMessages(input))).value.obj == AgentResponseJson(resp)
    ensures AgentResult(BuildMessages(input), agent).Success?
    ensures AgentResult(BuildMessages(input), agent).value.content == resp.content
    ensures AgentResult(BuildMessages(input), agent).value.action == Some(resp.action)
  {
    AgentResponseRoundTrip(resp);
  }
}
