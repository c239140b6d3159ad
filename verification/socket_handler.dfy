/** The socket-bound handler (`api/chat.py`): a four-entry history window,
    JSON decoding outside the exception handler, and replies written as
    status line, headers and body. */
module SocketHandler {
  import opened Py
  import opened Prompt
  import opened Relay

  const HistoryWindow: nat := 4

  const Persona := "You are a helpful assistant in the field of law. You are designed to provide advice and assistance on legal matters."

  /** What `do_POST` does: either it writes a response, or an exception
      escapes it (the request then gets no reply from this code). */
  datatype Outcome = Replied(response: Response) | Raised(error: string)

  function ErrorReply(status: nat, error: string): Response
  {
    Response(status, [JsonContentType], ErrorJson(error))
  }

  /** `handler.do_POST`, given what `json.loads` made of the request body and
      what the completion call returns if it is made. */
  function DoPost(decoded: Decoded, completion: Completion): (x: Exchange<Outcome>)
    ensures x.reply.Raised? <==> !decoded.Object?
    ensures decoded.Unparsable? ==> x.reply == Raised(decoded.error)
    ensures decoded.NotObject? ==> x.reply == Raised(NoGetText(decoded.typeName))
    ensures decoded.Object? && !TruthyText(decoded.payload.message) ==>
      x == Exchange(Replied(ErrorReply(400, NoMessageText)), None)
    ensures x.reply.Replied? ==> x.reply.response.status in {200, 400, 500}
    ensures x.reply.Replied? && x.reply.response.status == 200 <==> x.sent.Some? && completion.Answer?
    ensures x.sent.Some? && completion.Answer? ==>
      x.reply == Replied(Response(200, [JsonContentType, AllowAnyOrigin], AnswerJson(completion.content)))
    ensures x.sent.Some? && completion.Failure? ==> x.reply == Replied(ErrorReply(500, completion.error))
    ensures x.sent.Some? ==>
      && decoded.Object? && TruthyText(decoded.payload.message)
      && 2 <= |x.sent.value| <= HistoryWindow + 2
      && x.sent.value[0] == SystemMessage(Persona)
      && x.sent.value[|x.sent.value| - 1] == UserMessage(decoded.payload.message.value)
  {
    match decoded
    case Unparsable(err) => Exchange(Raised(err), None)
    case NotObject(t) => Exchange(Raised(NoGetText(t)), None)
    case Object(payload) =>
      if !TruthyText(payload.message) then
        Exchange(Replied(ErrorReply(400, NoMessageText)), None)
      else
        match Assemble(payload.history, payload.message.value, HistoryWindow, Persona)
        case Fail(err) => Exchange(Replied(ErrorReply(500, err)), None)
        case Ok(prompt) =>
          match completion
          case Answer(content) =>
            Exchange(Replied(Response(200, [JsonContentType, AllowAnyOrigin], AnswerJson(content))), Some(prompt))
          case Failure(err) => Exchange(Replied(ErrorReply(500, err)), Some(prompt))
  }

  /** `handler.do_OPTIONS`: an empty 200 carrying the three CORS headers it
      sets (the server adds its own `Server` and `Date` headers). */
  function DoOptions(): (r: Response)
    ensures r.status == 200 && r.body.NoBody?
    ensures |r.headers| == 3
    ensures Header("Access-Control-Allow-Origin", "*") in r.headers
    ensures Header("Access-Control-Allow-Methods", "POST, OPTIONS") in r.headers
    ensures Header("Access-Control-Allow-Headers", "Content-Type") in r.headers
  {
    Response(200, CorsHeaders, NoBody)
  }

  /** On a payload with a message, the prompt sent is exactly the assembled
      one, and an assembly failure is a 500 carrying its exception text. */
  lemma DoPostSendsAssembledPrompt(payload: Payload, completion: Completion)
    requires TruthyText(payload.message)
    ensures var x := DoPost(Object(payload), completion);
            var a := Assemble(payload.history, payload.message.value, HistoryWindow, Persona);
            && (a.Ok? ==> x.sent == Some(a.value))
            && (a.Fail? ==> x == Exchange(Replied(ErrorReply(500, a.error)), None))
  {
  }

  /** When no completion call is made, its would-be outcome has no influence. */
  lemma NoCallNoInfluence(decoded: Decoded, c1: Completion, c2: Completion)
    requires DoPost(decoded, c1).sent.None?
    ensures DoPost(decoded, c2) == DoPost(decoded, c1)
  {
  }

  /** When the first faulty window entry is a complete entry without
      `sender`, the reply is a 500 with the `KeyError` text, and no
      completion call is made. */
  lemma MissingSenderIs500(payload: Payload, history: seq<Entry>, i: int, completion: Completion)
    requires TruthyText(payload.message) && payload.history == Present(history)
    requires FirstFaultAt(Window(history, HistoryWindow), i)
    requires Window(history, HistoryWindow)[i].Entry? && Window(history, HistoryWindow)[i].sender.Absent?
    ensures DoPost(Object(payload), completion) == Exchange(Replied(ErrorReply(500, "'sender'")), None)
  {
    AssembleFault(history, i, payload.message.value, HistoryWindow, Persona);
    assert Fault(Window(history, HistoryWindow)[i]) == Some(KeyErrorText("sender"));
    assert KeyErrorText("sender") == "'sender'";
  }
}
