/**
 * The two voice routes (voice.ts). Both read the `audio` field of the posted
 * form, transcribe it and send the transcription to the agent. `/voice/stream`
 * writes a `transcription` and a `response` event, or an `error` event as
 * soon as a step throws. `/voice` answers with one JSON body and a status.
 *
 * The form reader, the transcription service and the agent are parameters:
 * each is the outcome of the call, a value or a thrown error.
 */
module Voice {
  import opened Wrappers
  import opened AgentCalls

  type Audio = seq<bv8>

  /** The form as read from the request: its `audio` file, if present, or the error reading it threw. */
  type Form = Outcome<Option<Audio>>

  type Transcriber = Audio -> Outcome<string>
  type Agent = GenerateRequest -> Outcome<Generation>

  const AudioRequired := "audio required"

  /** The request both routes send the agent: the transcription as the only message. */
  function VoiceRequest(transcription: string): GenerateRequest {
    GenerateRequest([Message(User, transcription)], Some(0.7), Some(500), false)
  }

  /** The events of `/voice/stream` for a form, a transcriber and an agent. */
  function StreamEvents(form: Form, transcribe: Transcriber, agent: Agent): (events: seq<StreamEvent>)
    ensures 1 <= |events| <= 2
    ensures forall e :: e in events ==> !e.StageUpdate? && !e.Payload?
    ensures events[|events| - 1].Error? || events[|events| - 1].Response?
    ensures |events| == 2 ==> events[0].Transcription?
    ensures events[|events| - 1].Response? ==>
              form.Success? && form.value.Some? && transcribe(form.value.value).Success?
              && agent(VoiceRequest(transcribe(form.value.value).value)).Success?
              && events == [Transcription(transcribe(form.value.value).value),
                            Response(agent(VoiceRequest(transcribe(form.value.value).value)).value.text)]
    ensures form.Failure? ==> events == [Error(form.message)]
    ensures form == Success(None) ==> events == [Error(AudioRequired)]
    ensures form.Success? && form.value.Some? ==>
              var heard := transcribe(form.value.value);
              && (heard.Failure? ==> events == [Error(heard.message)])
              && (heard.Success? ==>
                    var answer := agent(VoiceRequest(heard.value));
                    && (answer.Failure? ==> events == [Transcription(heard.value), Error(answer.message)])
                    && (answer.Success? ==> events == [Transcription(heard.value), Response(answer.value.text)]))
  {
    match form
    case Failure(m) => [Error(m)]
    case Success(None) => [Error(AudioRequired)]
    case Success(Some(audio)) =>
      match transcribe(audio)
      case Failure(m) => [Error(m)]
      case Success(t) =>
        match agent(VoiceRequest(t))
        case Failure(m) => [Transcription(t), Error(m)]
        case Success(g) => [Transcription(t), Response(g.text)]
  }

  /** The body of a `/voice` answer. */
  datatype VoiceBody = ErrorBody(error: string) | Transcript(transcription: string, text: string)

  datatype HttpResponse = HttpResponse(status: int, body: VoiceBody)

  /** The answer of `/voice`: 400 without audio, 500 with the message of any thrown error, else 200. */
  function PostResponse(form: Form, transcribe: Transcriber, agent: Agent): (r: HttpResponse)
    ensures r.status in {200, 400, 500}
    ensures r.status == 400 <==> form == Success(None)
    ensures r.status == 400 ==> r.body == ErrorBody(AudioRequired)
    ensures r.status == 200 <==> r.body.Transcript?
    ensures form.Failure? ==> r == HttpResponse(500, ErrorBody(form.message))
    ensures form.Success? && form.value.Some? ==>
              var heard := transcribe(form.value.value);
              && (heard.Failure? ==> r == HttpResponse(500, ErrorBody(heard.message)))
              && (heard.Success? ==>
                    var answer := agent(VoiceRequest(heard.value));
                    && (answer.Failure? ==> r == HttpResponse(500, ErrorBody(answer.message)))
                    && (answer.Success? ==> r == HttpResponse(200, Transcript(heard.value, answer.value.text))))
  {
    match form
    case Failure(m) => HttpResponse(500, ErrorBody(m))
    case Success(None) => HttpResponse(400, ErrorBody(AudioRequired))
    case Success(Some(audio)) =>
      match transcribe(audio)
      case Failure(m) => HttpResponse(500, ErrorBody(m))
      case Success(t) =>
        match agent(VoiceRequest(t))
        case Failure(m) => HttpResponse(500, ErrorBody(m))
        case Success(g) => HttpResponse(200, Transcript(t, g.text))
  }

  /** The `/voice/stream` handler, writing each event as it goes. */
  method HandleVoiceStream(form: Form, transcribe: Transcriber, agent: Agent) returns (events: seq<StreamEvent>)
    ensures events == StreamEvents(form, transcribe, agent)
  {
    events := [];
    if form.Failure? {
      events := events + [Error(form.message)];
      return;
    }
    var audioFile := form.value;
    if audioFile.None? {
      events := events + [Error(AudioRequired)];
      return;
    }
    var transcription := transcribe(audioFile.value);
    if transcription.Failure? {
      events := events + [Error(transcription.message)];
      return;
    }
    events := events + [Transcription(transcription.value)];
    var res := agent(VoiceRequest(transcription.value));
    if res.Failure? {
      events := events + [Error(res.message)];
      return;
    }
    events := events + [Response(res.value.text)];
  }

  /** The `/voice` handler. */
  method HandleVoice(form: Form, transcribe: Transcriber, agent: Agent) returns (response: HttpResponse)
    ensures response == PostResponse(form, transcribe, agent)
  {
    if form.Failure? {
      return HttpResponse(500, ErrorBody(form.message));
    }
    var audioFile := form.value;
    if audioFile.None? {
      return HttpResponse(400, ErrorBody(AudioRequired));
    }
    var transcription := transcribe(audioFile.value);
    if transcription.Failure? {
      return HttpResponse(500, ErrorBody(transcription.message));
    }
    var res := agent(VoiceRequest(transcription.value));
    if res.Failure? {
      return HttpResponse(500, ErrorBody(res.message));
    }
    response := HttpResponse(200, Transcript(transcription.value, res.value.text));
  }

  /**
   * The two routes agree: the stream succeeds with a transcription and a
   * response exactly when `/voice` answers 200 with the same two texts, and
   * otherwise the stream's one error carries the message of `/voice`'s error body.
   */
  lemma {:induction false} RoutesAgree(form: Form, transcribe: Transcriber, agent: Agent)
    ensures var events, r := StreamEvents(form, transcribe, agent), PostResponse(form, transcribe, agent);
            && (r.status == 200 <==> r.body.Transcript? && events == [Transcription(r.body.transcription), Response(r.body.text)])
            && (r.status != 200 <==> r.body.ErrorBody? && events[|events| - 1] == Error(r.body.error))
  {
  }

  /** Missing audio yields the single event `error: audio required` and nothing else. */
  lemma MissingAudioStream(transcribe: Transcriber, agent: Agent)
    ensures StreamEvents(Success(None), transcribe, agent) == [Error(AudioRequired)]
  {
  }

  /** An error event ends the stream: no event before the last one is an error. */
  lemma {:induction false} OneErrorAtTheEnd(form: Form, transcribe: Transcriber, agent: Agent)
    ensures var events := StreamEvents(form, transcribe, agent);
            forall i :: 0 <= i < |events| - 1 ==> !events[i].Error?
  {
  }
}
