/**
 * What the two backend endpoints exchange with the daily-goal agent and
 * emit on their event streams. The agent (a language-model call) is not part
 * of this model: each endpoint takes it as a function from the request it is
 * sent to the outcome of the call, a generation or a thrown error.
 */
module AgentCalls {
  import opened Wrappers
  import opened CommandSchema

  datatype Role = User | Assistant | System

  datatype Message = Message(role: Role, content: string)

  /** The arguments of `dailyGoalAgent.generate`; `structured` says whether the response schema was passed as `output`. */
  datatype GenerateRequest = GenerateRequest(
    messages: seq<Message>,
    temperature: Option<real>,
    maxTokens: Option<int>,
    structured: bool)

  /** A generation: the structured object (when one was asked for), the text, and the usage report. */
  datatype Generation = Generation(obj: Json, text: string, usage: Json)

  /** The chat step's output: the reply text, the action to run, and the usage report. */
  datatype ChatOutput = ChatOutput(content: string, action: Option<Action>, usage: Json)

  /** The JSON events written to a server-sent event stream. */
  datatype StreamEvent =
    | StageUpdate(status: string)
    | Payload(output: ChatOutput)
    | Transcription(text: string)
    | Response(text: string)
    | Error(message: string)
}
