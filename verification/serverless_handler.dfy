/** The serverless handler (`chat.py`): a ten-entry history window, a
    catch-all around decoding, assembly and the completion call, and method
    dispatch for CORS preflight. Replies are `{statusCode, headers?, body?}`
    dictionaries; an empty `headers` sequence stands for a missing
    `headers` key. */
module ServerlessHandler {
  import opened Py
  import opened Prompt
  import opened Relay

  const HistoryWindow: nat := 10

  const Persona := "You are a helpful assistant in the field of law. You are designed to provide advice and assistance to users on legal matters."

  const MethodNotAllowedText := "Method Not Allowed"

  /** The serverless event's two relevant keys. */
  datatype Event = Event(httpMethod: Field<string>, body: Field<string>)

  /** `json.loads(requestBody)`, where `requestBody` is `None` for Python
      `None`. Decoding proper is the parameter `decode`; the two inputs whose
      outcome is fixed (no text, empty text) are written out. */
  function Loads(requestBody: Option<string>, decode: string -> Decoded): (d: Decoded)
    ensures requestBody.None? ==> d == Unparsable(NotADocumentText)
    ensures requestBody == Some("") ==> d == Unparsable(EmptyDocumentText)
    ensures requestBody.Some? && requestBody.value != "" ==> d == decode(requestBody.value)
  {
    match requestBody
    case None => Unparsable(NotADocumentText)
    case Some(text) => if text == "" then Unparsable(EmptyDocumentText) else decode(text)
  }

  function ErrorReply(status: nat, error: string): Response
  {
    Response(status, [], ErrorJson(error))
  }

  /** The body of `handle_request`'s `try` block after decoding, together
      with its `except` clause: every failure is a 500 carrying the exception
      text, a missing message is a 400. */
  function Respond(decoded: Decoded, completion: Completion): (x: Exchange<Response>)
    ensures x.reply.status in {200, 400, 500}
    ensures x.reply.headers == []
    ensures x.reply.status != 200 ==> x.reply.body.ErrorJson?
    ensures !decoded.Object? ==> x.sent.None? && x.reply.status == 500
    ensures decoded.Unparsable? ==> x.reply.body == ErrorJson(decoded.error)
    ensures decoded.NotObject? ==> x.reply.body == ErrorJson(NoGetText(decoded.typeName))
    ensures x.reply.status == 400 <==> decoded.Object? && !TruthyText(decoded.payload.message)
    ensures x.reply.status == 400 ==> x.reply.body == ErrorJson(NoMessageText) && x.sent.None?
    ensures x.reply.status == 200 <==> x.sent.Some? && completion.Answer?
    ensures x.reply.status == 200 ==> x.reply.body == AnswerJson(completion.content)
    ensures x.sent.Some? && completion.Failure? ==> x.reply == ErrorReply(500, completion.error)
    ensures x.sent.Some? ==>
      && decoded.Object? && TruthyText(decoded.payload.message)
      && 2 <= |x.sent.value| <= HistoryWindow + 2
      && x.sent.value[0] == SystemMessage(Persona)
      && x.sent.value[|x.sent.value| - 1] == UserMessage(decoded.payload.message.value)
  {
    match decoded
    case Unparsable(err) => Exchange(ErrorReply(500, err), None)
    case NotObject(t) => Exchange(ErrorReply(500, NoGetText(t)), None)
    case Object(payload) =>
      if !TruthyText(payload.message) then
        Exchange(ErrorReply(400, NoMessageText), None)
      else
        match Assemble(payload.history, payload.message.value, HistoryWindow, Persona)
        case Fail(err) => Exchange(ErrorReply(500, err), None)
        case Ok(prompt) =>
          match completion
          case Answer(content) => Exchange(Response(200, [], AnswerJson(content)), Some(prompt))
          case Failure(err) => Exchange(ErrorReply(500, err), Some(prompt))
  }

  /** `handle_request`: decodes the body inside the `try` block, so it never
      raises; a body that is `None` or empty is a 500 without a call. */
  function HandleRequest(requestBody: Option<string>, decode: string -> Decoded, completion: Completion): (x: Exchange<Response>)
    ensures x == Respond(Loads(requestBody, decode), completion)
    ensures x.reply.status in {200, 400, 500} && x.reply.headers == []
    ensures requestBody.None? ==> x == Exchange(ErrorReply(500, NotADocumentText), None)
    ensures requestBody == Some("") ==> x == Exchange(ErrorReply(500, EmptyDocumentText), None)
  {
    Respond(Loads(requestBody, decode), completion)
  }

  /** `event.get('body', '')`: a missing body reads as the empty text. */
  function BodyArgument(body: Field<string>): (a: Option<string>)
    ensures body.Absent? ==> a == Some("")
    ensures body.Null? ==> a.None?
    ensures body.Present? ==> a == Some(body.value)
  {
    match body
    case Absent => Some("")
    case Null => None
    case Present(text) => Some(text)
  }

  /** `handler(event, context)`: preflight, method check, then delegation. */
  function Handler(event: Event, decode: string -> Decoded, completion: Completion): (x: Exchange<Response>)
    ensures event.httpMethod == Present("OPTIONS") ==> x == Exchange(Response(200, CorsHeaders, NoBody), None)
    ensures event.httpMethod != Present("OPTIONS") && event.httpMethod != Present("POST") ==>
      x == Exchange(Response(405, [], PlainText(MethodNotAllowedText)), None)
    ensures event.httpMethod == Present("POST") ==>
      x == HandleRequest(BodyArgument(event.body), decode, completion)
    ensures x.reply.status in {200, 400, 405, 500}
    ensures x.reply.headers != [] <==> event.httpMethod == Present("OPTIONS")
  {
    if event.httpMethod == Present("OPTIONS") then
      Exchange(Response(200, CorsHeaders, NoBody), None)
    else if event.httpMethod != Present("POST") then
      Exchange(Response(405, [], PlainText(MethodNotAllowedText)), None)
    else
      HandleRequest(BodyArgument(event.body), decode, completion)
  }

  /** A preflight reply carries exactly the three CORS headers and no body. */
  lemma PreflightHeaders(event: Event, decode: string -> Decoded, completion: Completion)
    requires event.httpMethod == Present("OPTIONS")
    ensures var r := Handler(event, decode, completion).reply;
            && r.status == 200 && r.body.NoBody? && |r.headers| == 3
            && r.headers[0] == Header("Access-Control-Allow-Origin", "*")
            && r.headers[1] == Header("Access-Control-Allow-Methods", "POST, OPTIONS")
            && r.headers[2] == Header("Access-Control-Allow-Headers", "Content-Type")
  {
  }

  /** On a payload with a message, the prompt sent is exactly the assembled
      one, and an assembly failure is a 500 carrying its exception text. */
  lemma HandleRequestSendsAssembledPrompt(text: string, decode: string -> Decoded, payload: Payload, completion: Completion)
    requires text != "" && decode(text) == Object(payload)
    requires TruthyText(payload.message)
    ensures var x := HandleRequest(Some(text), decode, completion);
            var a := Assemble(payload.history, payload.message.value, HistoryWindow, Persona);
            && (a.Ok? ==> x.sent == Some(a.value))
            && (a.Fail? ==> x == Exchange(ErrorReply(500, a.error), None))
  {
  }

  /** A complete window entry without `sender`, `text`, or that is not an
      object, ahead of any other faulty entry, turns into a 500 carrying the
      exception text, and no completion call is made. */
  lemma MalformedEntryIs500(text: string, decode: string -> Decoded, payload: Payload, history: seq<Entry>, i: int, completion: Completion)
    requires text != "" && decode(text) == Object(payload)
    requires TruthyText(payload.message) && payload.history == Present(history)
    requires FirstFaultAt(Window(history, HistoryWindow), i)
    ensures var e := Window(history, HistoryWindow)[i];
            var x := HandleRequest(Some(text), decode, completion);
            && x.sent.None? && x.reply.status == 500
            && (e.NonObject? ==> x.reply.body == ErrorJson(NoGetText(e.typeName)))
            && (e.Entry? && e.sender.Absent? ==> x.reply.body == ErrorJson("'sender'"))
            && (e.Entry? && e.sender.Present? ==> x.reply.body == ErrorJson("'text'"))
            && (e.Entry? && e.sender.Null? ==> x.reply.body == ErrorJson("'text'"))
  {
    AssembleFault(history, i, payload.message.value, HistoryWindow, Persona);
    assert KeyErrorText("sender") == "'sender'";
    assert KeyErrorText("text") == "'text'";
  }

  /** A null `history` is sliced inside the exception handler: a 500. */
  lemma NullHistoryIs500(text: string, decode: string -> Decoded, message: string, completion: Completion)
    requires text != "" && decode(text) == Object(Payload(Present(message), Null))
    requires message != ""
    ensures HandleRequest(Some(text), decode, completion) == Exchange(ErrorReply(500, NotSubscriptableText), None)
  {
  }

  /** A POST whose body is missing, null or empty text never reaches the
      decoder: it is a 500 carrying the matching decoding error, with no
      completion call, whatever the decoder and the completion would do. */
  lemma NoBodyTextIs500(body: Field<string>, decode: string -> Decoded, completion: Completion)
    requires !(body.Present? && body.value != "")
    ensures Handler(Event(Present("POST"), body), decode, completion)
      == Exchange(ErrorReply(500, if body.Null? then NotADocumentText else EmptyDocumentText), None)
  {
  }
}
