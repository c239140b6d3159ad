/** The request and response shapes both handlers share: the decoded JSON
    payload, the outcome of the completion call, and the HTTP-shaped reply. */
module Relay {
  import opened Py
  import opened Prompt

  /** The JSON body's two relevant keys. */
  datatype Payload = Payload(message: Field<string>, history: Field<seq<Entry>>)

  /** What `json.loads` made of the body: a decoding error (with its text), a
      JSON value that is not an object (of Python type `typeName`), or an
      object. */
  datatype Decoded =
    | Unparsable(error: string)
    | NotObject(typeName: string)
    | Object(payload: Payload)

  /** The outcome of the remote completion call: the first choice's content,
      or the text of the exception it raised. */
  datatype Completion = Answer(content: string) | Failure(error: string)

  datatype Header = Header(name: string, value: string)

  /** A response body: none, a JSON object with an `error` or a `response`
      key, or plain text. */
  datatype Body =
    | NoBody
    | ErrorJson(error: string)
    | AnswerJson(response: string)
    | PlainText(text: string)

  datatype Response = Response(status: nat, headers: seq<Header>, body: Body)

  /** A handler's reply together with the prompt it handed to the completion
      call; `sent` is `None` when no call was made. */
  datatype Exchange<R> = Exchange(reply: R, sent: Option<seq<Message>>)

  const NoMessageText := "No message provided"
  const JsonContentType := Header("Content-type", "application/json")
  const AllowAnyOrigin := Header("Access-Control-Allow-Origin", "*")

  /** The three CORS headers of a preflight reply. */
  const CorsHeaders := [
    AllowAnyOrigin,
    Header("Access-Control-Allow-Methods", "POST, OPTIONS"),
    Header("Access-Control-Allow-Headers", "Content-Type")
  ]
}
