/** How the two handlers compare on the same request. */
module Variants {
  import opened Py
  import opened Prompt
  import opened Relay
  import SocketHandler
  import ServerlessHandler

  /** A body that does not decode to a JSON object escapes the socket
      handler as an exception, while the serverless handler answers it with a
      500 carrying the same exception text. */
  lemma DecodeFailureEscapesOnlyTheSocketHandler(text: string, decode: string -> Decoded, completion: Completion)
    requires text != "" && !decode(text).Object?
    ensures var socket := SocketHandler.DoPost(decode(text), completion);
            var serverless := ServerlessHandler.HandleRequest(Some(text), decode, completion);
            && socket.reply.Raised?
            && serverless.reply == Response(500, [], ErrorJson(socket.reply.error))
  {
  }

  /** On a history of at most four entries (or a missing or null one) both
      handlers make the same decision: they reply with the same status and
      body, and the prompts they send differ only in the system entry's
      persona. */
  lemma ShortHistoriesAgree(text: string, decode: string -> Decoded, payload: Payload, completion: Completion)
    requires text != "" && decode(text) == Object(payload)
    requires payload.history.Present? ==> |payload.history.value| <= SocketHandler.HistoryWindow
    ensures var socket := SocketHandler.DoPost(decode(text), completion);
            var serverless := ServerlessHandler.HandleRequest(Some(text), decode, completion);
            && socket.reply.Replied?
            && socket.reply.response.status == serverless.reply.status
            && socket.reply.response.body == serverless.reply.body
            && socket.sent.Some? == serverless.sent.Some?
            && (socket.sent.Some? ==> socket.sent.value[1..] == serverless.sent.value[1..])
  {
    if TruthyText(payload.message) {
      var q := payload.message.value;
      if payload.history.Present? {
        ShortHistoryWindowIndependent(payload.history.value, q, SocketHandler.HistoryWindow, ServerlessHandler.HistoryWindow, SocketHandler.Persona);
      }
      PersonaOnlyFramesPrompt(payload.history, q, ServerlessHandler.HistoryWindow, SocketHandler.Persona, ServerlessHandler.Persona);
    }
  }
}
