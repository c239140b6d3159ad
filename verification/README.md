# Chat relay: prompt assembly and response mapping

The legal-chatbot backend relays a user's chat message, together with a
bounded window of the conversation so far, to a remote chat-completion API
and sends the answer back. Two handlers do this with the same policy:

- `api/chat.py` (`handler.do_POST`, `handler.do_OPTIONS`): a socket-bound
  HTTP handler with a history window of 4;
- `chat.py` (`handle_request`, `handler`): a serverless function with a
  history window of 10 that returns a `{statusCode, headers?, body}`
  dictionary and dispatches on the HTTP method.

Both validate the message, take the last N history entries, drop the
entries whose `isComplete` is falsy (a missing flag reads as true), map
sender `"user"` to role `user` and every other sender to `assistant`, frame
the result with one system entry in front and the new message at the end,
call the completion API, and map the outcome onto status 200, 400 or 500.

The model is functional:

- `py.dfy` (`Py`): the Python behaviour the handlers rely on. It covers
  `Option` and `Result`, `Field` (a JSON object key that is missing, `null`
  or present), truthiness, `xs[-k:]`, and the texts `str(e)` yields for the
  exceptions that can occur.
- `prompt.dfy` (`Prompt`): the history loop and prompt assembly
  (`Assemble(history, query, n, persona)`). `Kept` and `Messages` are
  independent reference definitions (filter, then map), and the lemmas
  tie the loop to them.
- `relay.dfy` (`Relay`): the payload, decoding outcome, completion outcome
  and response shapes.
- `socket_handler.dfy` (`SocketHandler`): `api/chat.py`.
- `serverless_handler.dfy` (`ServerlessHandler`): `chat.py`.
- `variants.dfy` (`Variants`): how the two handlers compare on one request.

Each handler returns an `Exchange`: the reply plus the prompt handed to the
completion call, or `None` when no call was made. The completion call is an
oracle value, `Answer(content)` or `Failure(error)`. JSON decoding is the
parameter `decode`, or for `api/chat.py` its result `Decoded`.

A history entry is either a JSON object, whose keys `sender`, `text` and
`isComplete` are each `Field`s, or some other JSON value. The lookups
`msg["sender"]` and `msg["text"]` happen only for complete entries. They
raise `KeyError` only when the key is missing. A `null` sender maps to
`assistant`, and a `null` text gives `null` content. A `null` `isComplete`
is falsy, so the entry is dropped.

Notable behaviour of the code:

- `api/chat.py` decodes the body and reads `message` outside its `try`
  block. A body that is not JSON, or not a JSON object, therefore escapes
  the handler as an exception (`Raised`). It is not answered with a 4xx or
  5xx status.
- `chat.py` answers a malformed body with 500, not 400.
- In `chat.py` only the preflight reply carries headers. The 200, 400, 405
  and 500 dictionaries have no `headers` key, which the model writes as an
  empty header sequence.
- Among the `do_POST` replies of `api/chat.py`, only the 200 carries
  `Access-Control-Allow-Origin`. Only the `do_OPTIONS` preflight carries
  `Access-Control-Allow-Methods` and `-Headers`.

`Frame`, `Messages`, `Kept`, `Window`, `Loads` and `BodyArgument` are helper
and reference definitions; what they mean for the handlers is stated by the
`Assemble`, `AssembleShape`, `HandleRequest` and `NoBodyTextIs500` rows.

## Model

| member | source | states |
|---|---|---|
| Py.Suffix | api/chat.py:31 | `history[-k:]` is the suffix of length min(k, len(history)), and the whole list when k is 0 |
| Prompt.Fault | chat.py:31-34 | processing an entry raises exactly when it is not an object, or when it is complete and lacks `sender` or `text` |
| Prompt.Step | api/chat.py:34-38 | one loop iteration appends nothing for an incomplete entry, one mapped message for a complete one, or raises that entry's exception |
| Prompt.AppendHistory | api/chat.py:33-38 | the loop succeeds iff no entry raises; it adds at most one message per entry and never a system entry |
| Prompt.Assemble | api/chat.py:30-40 | a null history raises `TypeError`; a prompt starts with the system persona, ends with the user query, has no other system entry and at most n + 2 entries |
| Prompt.KeptMembers | api/chat.py:34 | an entry contributes iff it is in the history and complete |
| Prompt.KeptConcat | chat.py:30-35 | filtering keeps the original relative order (it distributes over concatenation) |
| Prompt.KeptCounts | chat.py:31 | each complete entry is kept as often as it occurs, each incomplete entry never |
| Prompt.KeptLength | chat.py:30-35 | at most one contribution per entry, and one for every entry iff all are complete |
| Prompt.AppendHistoryIsFilterThenMap | api/chat.py:33-38 | the fused loop equals filter-complete-then-map-roles whenever it succeeds |
| Prompt.AppendHistoryReportsFirstFault | chat.py:30-35 | the loop raises the exception of the first faulty entry |
| Prompt.IncompleteEntryIgnored | api/chat.py:34 | swapping an incomplete entry for any other incomplete entry (any sender, any text, even missing) leaves the loop's outcome unchanged |
| Prompt.AssembleShape | chat.py:27-37 | assembly succeeds iff no window entry raises, and the prompt is system + mapped complete window entries in order + user query |
| Prompt.AbsentHistoryIsEmpty | api/chat.py:19 | a missing `history` key gives the two-entry prompt |
| Prompt.AssembleFault | chat.py:33-34 | a faulty window entry makes assembly raise the first such entry's exception |
| Prompt.AssembleLength | api/chat.py:30-40 | the prompt has 2 + (complete entries among the last min(n, len(history))) entries |
| Prompt.AssembleRoles | api/chat.py:36-37 | each history-derived entry has role `user` iff its sender is `"user"`, else `assistant`, content its text, and comes from a complete window entry |
| Prompt.IncompleteNeverContributes | chat.py:31 | an entry with a false or null `isComplete` is never kept, and its sender and text have no effect on the prompt |
| Prompt.OlderEntriesIgnored | chat.py:28 | entries older than the window have no effect, even malformed ones |
| Prompt.ShortHistoryWindowIndependent | api/chat.py:31 | two windows that both cover the whole history give the same prompt |
| Prompt.PersonaOnlyFramesPrompt | chat.py:27 | the persona affects only the first entry, never success or the rest of the prompt |
| SocketHandler.DoPost | api/chat.py:14-60 | a non-object body escapes; an empty message is 400 with no call; 200 iff a call is made and answers, with the answer and CORS origin header; a failed call is 500 with its text; a sent prompt is framed by the persona and the query, at most 6 entries |
| SocketHandler.DoOptions | api/chat.py:62-67 | preflight is an empty 200 with the three CORS headers |
| SocketHandler.DoPostSendsAssembledPrompt | api/chat.py:28-46 | the prompt sent is the assembled one; an assembly exception is a 500 with its text and no call |
| SocketHandler.NoCallNoInfluence | api/chat.py:21-26 | when no call is made, the completion outcome cannot influence the reply |
| SocketHandler.MissingSenderIs500 | api/chat.py:36 | when the first faulty window entry is a complete entry without `sender`, the reply is 500 with `'sender'` and no call |
| ServerlessHandler.Respond | chat.py:17-56 | never raises: status is 200, 400 or 500 with no headers; undecodable or non-object bodies are 500 with the exception text; 400 iff the message is missing or empty, with no call; 200 iff the call answers, with its content; a failed call is 500 with its text; a sent prompt is framed by the persona and the query, at most 12 entries |
| ServerlessHandler.HandleRequest | chat.py:14-16 | decoding happens inside the exception handler, so the result is always a 200/400/500 reply without headers; a `None` or empty body is a 500 with the decoding error text and no call |
| ServerlessHandler.Handler | chat.py:58-75 | OPTIONS is 200 with the CORS headers and no call; any method other than OPTIONS or POST is 405 "Method Not Allowed"; POST delegates the body; only preflight has headers |
| ServerlessHandler.PreflightHeaders | chat.py:59-67 | the preflight reply carries exactly the three CORS headers and no body |
| ServerlessHandler.NoBodyTextIs500 | chat.py:75 | a POST whose body is missing, null or empty is a 500 with the matching decoding error (`json.loads(None)` or `json.loads("")`) and no call, whatever the decoder and completion would do |
| ServerlessHandler.HandleRequestSendsAssembledPrompt | chat.py:26-43 | the prompt sent is the assembled one; an assembly exception is a 500 with its text and no call |
| ServerlessHandler.MalformedEntryIs500 | chat.py:52-56 | the first faulty window entry (a non-object, or a complete entry without `sender` or `text`) gives 500 with its matching exception text and no call |
| ServerlessHandler.NullHistoryIs500 | chat.py:28 | a null `history` is a 500 with the slicing `TypeError` text |
| Variants.DecodeFailureEscapesOnlyTheSocketHandler | api/chat.py:17 | a body that does not decode to an object escapes the socket handler, and the serverless handler answers it with a 500 carrying the same text |
| Variants.ShortHistoriesAgree | chat.py:28 | on a history of at most four entries, or a missing or null one, both handlers give the same status and body, and their prompts differ only in the persona |

## Left out

- JSON decoding and encoding: decoding is an abstract `decode` function, or its result for `api/chat.py`. Only the two fixed cases are written out: `json.loads("")` and `json.loads(None)` always fail. Encoding a reply body is not modelled; bodies are datatypes.
- The completion call: it is an oracle value. The model name `glm-4` and `stream=False` are not modelled; network failures appear only as `Failure(text)`, and their causes are not modelled. A response without choices, or whose content is not a string, counts as a `Failure` or is not represented.
- Environment loading and client construction at import time: these are process-start side effects. A missing API key stops the module from loading at all.
- Socket plumbing of `api/chat.py`: `Content-Length`, `rfile`, `wfile` and the UTF-8 decoding of the body. An undecodable body escapes exactly like a JSON decoding error, as `Unparsable`.
- The `main(req, res)` shim in `api/chat.py`: it answers any non-POST request with status 405 and body "Method Not Allowed"; its POST branch calls `handler()` without the request, client address and server that `BaseRequestHandler` needs, so it raises `TypeError` before `do_POST` runs and cannot serve a request.
- JSON values of unexpected types are not modelled: a message that is not a string, a `sender` or `text` that is not a string (a non-string `text` would be passed through as content), an `isComplete` that is not a boolean, a `history` that is not a list, an event `body` that is not a string, or an event that is not a dict. Python truthiness for those is not modelled.
- Automatic headers of `BaseHTTPRequestHandler`: `send_response` also writes `Server` and `Date` headers. The `headers` sequences of `SocketHandler` list only the headers the handler sets itself with `send_header`, so `DoOptions` states three headers where the wire carries five.
- Exception texts are those of CPython 3; other interpreters may word them differently.
- The browser client (`src/components/ChatBot.js`): UI state, storage, timers and `fetch`. Its `isComplete !== false` filter duplicates the server-side one.
