# Messaging store and tool-calling query client, modelled in Dafny

This project models the two pieces of logic at the core of a small messaging
application that language-model tools can drive.

- **The message store** (`database.py`) has three tables. Users have unique
  emails. Messages have a sender, a subject and content. Recipient rows record
  one delivery of a message to one user, with a `read` flag and a `read_at`
  time. Module `MessageStore` holds the tables as sequences of records in
  insertion order. It models every API function as a pure function: the
  queries return the same dictionaries the source returns, and each
  state-changing call returns a `Step`, which pairs the new store with the
  value returned or the error raised. Generated primary keys (`uuid4`) and
  clock readings (`utcnow`) are parameters. A generated key that collides
  violates its primary-key constraint, just as a duplicate email violates the
  unique constraint, so the rollback paths can be reached in the model.
- **The query client** (`client.py`) has two parts. `get_mcp_tools` adapts the
  tool server's catalog into function declarations for the model API.
  `process_query` runs one model/tool exchange. In module `McpClient`, the
  model's two replies and the tool server's results are oracle inputs. A run
  (`QueryRun`) records four things: the model requests sent, the tools
  invoked, the transcript built and the answer returned.

Helper modules: `Wrappers` (Option, Result) and `Seqs` (order-preserving
`Filter`, `First`, and their lemmas). Together these model every
equality-filtered SQL query.

The gate at `client.py:107` is a predicate parameter of
`McpClient.ProcessQuery`. Two versions are given:

- `AsWrittenGate` is the expression as written, `tool_calls in tool_list`. It
  tests whether the whole list of calls equals one of the declaration
  dictionaries, so it never passes.
- `NameGate` is the intended membership test: every requested call names a
  declared tool. `McpClient.AnswerQuery` uses it.

Either way, whenever the reply has tool calls, a second model request is
issued, unless a tool result without a leading text block aborts the run
first.

The model follows the code as written:

- The transcript is not extended with the final reply. After one tool call it
  has three turns: the user turn, the assistant reply and the tool turn.
- A call to an unknown tool gets no tool turn of its own. The gate decides for
  the whole list of calls at once.
- A tool result without a leading text block aborts the run. It is not
  folded into the conversation.
- A null final content is returned as None, not as an empty string.
- A malformed schema does not drop its tool from the catalog. Tools are copied
  verbatim.
- Recipients and senders are not checked against the users table.

## Model

| member | source | states |
|---|---|---|
| MessageStore.EmptyStore | database.py:63 | The freshly created schema has three empty tables and satisfies the store invariant (unique keys and emails, `read_at` set exactly on read rows). |
| MessageStore.CreateUser | database.py:68-75 | Succeeds exactly when neither the email nor the generated id is taken. Success returns id, email and name equal to the inputs and appends exactly that user, leaving the other tables alone. A taken email or id raises an integrity error and leaves the store unchanged. The invariant is preserved. |
| MessageStore.GetUserByEmail | database.py:78-84 | Returns None exactly when no user has the email. Otherwise it returns the id/email/name view of a user that has it. |
| MessageStore.GetAllUsers | database.py:87-91 | Returns one id/email/name view per user, in table order. |
| MessageStore.CreateUserThenLookup | database.py:68-91 | After a successful create, a lookup by that email returns exactly the record create returned, and the full user list contains it. |
| MessageStore.LookupFindsTheUser | database.py:23 | In a valid store, a lookup by a user's email returns that user, because emails are unique. |
| MessageStore.Deliveries | database.py:102-104 | One delivery row per listed recipient, in list order. Each row has its generated id, the new message id, that recipient, `read` false and no `read_at`. |
| MessageStore.SendMessage | database.py:95-119 | Succeeds exactly when the generated message id and row ids collide with nothing. Success returns the message with the given sender, subject, content and time. It appends exactly that message and exactly one unread row per recipient, in order, and keeps every old row and the users table unchanged. Any failure rolls back completely. The invariant is preserved. |
| MessageStore.GetAllSentMessage | database.py:122-137 | Returns exactly the messages whose sender is the argument, each as often as it is stored, and no other message. |
| MessageStore.SendThenSent | database.py:95-137 | A successful send appends the new message to its sender's sent list and leaves every other sender's list unchanged. |
| MessageStore.FindMessage | database.py:146 | Returns None exactly when no message has the id. Otherwise it returns a stored message with that id. |
| MessageStore.InboxRows | database.py:143 | The delivery rows addressed to the user: every such row as often as it is stored, and no other row. |
| MessageStore.ViewInbox | database.py:140-162 | One entry per delivery row addressed to the user, with that row's recipient, message id, read flag and read time. The message part is a stored message with the row's message id, or None exactly when no such message exists. |
| MessageStore.SendThenInbox | database.py:95-143 | A successful send extends each user's inbox rows with exactly the new deliveries addressed to that user, in recipient-list order. |
| MessageStore.UnreadRows | database.py:168-170 | The unread delivery rows addressed to the user: every such row as often as it is stored, and no other row. |
| MessageStore.GetUnreadMessage | database.py:165-181 | One view per unread delivery row addressed to the user, position by position, so a recipient listed twice on a message gets two views. The list contains exactly the views of those rows. |
| MessageStore.UnreadRowsOfInbox | database.py:143-170 | The unread rows are the unread part of the inbox rows. |
| MessageStore.UnreadIsUnreadPartOfInbox | database.py:140-181 | In both directions, a view is in the unread list exactly when it is unread and is the row part of an inbox entry of the same user. Also, entry by entry in inbox order, the unread list is the row part of the unread inbox entries, so each unread delivery occurs as often as in the inbox. |
| MessageStore.MessageRows | database.py:187 | The delivery rows of the message id: every such row as often as it is stored, and no other row. |
| MessageStore.GetMessageWithRecipients | database.py:184-207 | The message part is None exactly when no message has the id, and otherwise is the stored message with it. The recipient list has one status per delivery row of that message id, position by position, and contains exactly the statuses of those rows. |
| MessageStore.SendThenFind | database.py:95-119 | After a successful send, looking up the new message id finds exactly the sent message. |
| MessageStore.SendThenMessageRows | database.py:95-119 | After a successful send, the message's delivery rows are the rows already filed under its id, followed by the new deliveries. |
| MessageStore.SendThenDetail | database.py:95-207 | After a successful send, the message reads back with its content and its statuses: those already filed under its id, then one unread status with no read time per listed recipient, in list order. |
| MessageStore.MarkAsRead | database.py:210-232 | Every row matching both the message and the recipient becomes read at `now`, keeping its id and addresses. Every other row, the users and the messages are unchanged. It succeeds exactly when some row matches, returning `read` true and `read_at` equal to `now`. With no match it fails and nothing changes. The invariant is preserved. |
| MessageStore.MarkAsReadTwice | database.py:213-219 | A second marking succeeds exactly when the first did and leaves every read flag as the first set it. With the same clock reading it changes nothing. |
| MessageStore.ReplayPreservesValid | database.py:48-59 | Any sequence of create/send/mark calls from a valid store ends in a valid store, so a row's `read_at` is set exactly when `read` is true. |
| McpClient.GetMcpTools | client.py:36-50 | One declaration per catalog tool, in catalog order. Each has type "function" and the tool's name, description and input schema unchanged. |
| McpClient.AdapterRoundTrip | client.py:40-50 | The catalog can be read back unchanged from the declarations, so the adapter neither loses, reorders nor alters any tool. |
| McpClient.FirstText | client.py:119 | A result's text is present exactly when its first content block is a text block, and then it is that block's text. |
| McpClient.ToolRound | client.py:108-121 | Calls are invoked in the model's order. Each completed call adds one tool turn carrying that call's id and the text of its result. The round completes all calls exactly when every result has a leading text block. Otherwise it stops right after the first call whose result has none. |
| McpClient.ProcessQuery | client.py:53-133 | The first request carries only the user turn, the adapted catalog and tool choice "auto". The transcript starts with the user turn and the assistant reply. With no tool calls the reply's content is returned and nothing else is sent. With calls, a rejecting gate invokes nothing and keeps the transcript at two turns. A passing gate with text results invokes every call once, in order, making 2 + n turns. When tool calls exist and nothing aborts, the second request carries the full transcript, the same tools and tool choice "none", and its content is the answer, whether or not the gate passed. An aborted run stops at its last invoked call, the first whose result has no leading text block, and its error carries that call's id. |
| McpClient.NameGateIsCatalogMembership | client.py:107 | The intended gate, applied to the adapted catalog, passes exactly when every requested call names a catalog tool. |
| McpClient.AnswerQuery | client.py:106-130 | With the name gate, only catalog tools are ever invoked. If every call names a catalog tool and every result has text, all calls run in order and the final reply's content is returned. If any call names an unknown tool, nothing runs and the final reply's content is returned. |
| McpClient.AsWrittenNeverRunsTools | client.py:107 | With the gate as written and at least one tool call, no tool is invoked. The transcript stays at two turns and the second request still decides the answer. |
| McpClient.AddExample | client.py:66-121 | An illustrative run shaped like the reply and result sketched in the comments at client.py:66-94: one `add` call `call_1` whose result is "5". The name gate invokes that call and yields the transcript user, assistant, tool("call_1", "5") and the final reply's content as the answer. The written gate invokes nothing. The query, the tool's description and schema, and the final answer text are placeholders. |

## Findings

| source | as written | input that shows it | evidently intended | confidence | as-written member | corrected member |
|---|---|---|---|---|---|---|
| client.py:107 | `if assistant_message.tool_calls in tool_list:` asks whether the whole list of tool-call objects equals one of the declaration dictionaries. A list never equals a dict, so the test is always false. | Catalog `[add]`, and a first reply with the single call `call_1` to `add`. No tool is called, and the final request sees no tool result. | Execute the calls when the requested tool names are in the offered catalog. | high; not executed | McpClient.AsWrittenNeverRunsTools | McpClient.AnswerQuery |

## Left out

- The engine and session machinery (`create_engine`, `sessionmaker`, `create_all`, opening and closing sessions, `echo`) is library plumbing. The model keeps only the committed table contents.
- Result rows come back in insertion order. The source's queries have no `ORDER BY`, so this is the order SQLite returns for a table scan.
- `isoformat()` formatting of times is not modelled. A time is an opaque `Timestamp`, and the views carry it unformatted.
- `uuid4` and `utcnow` are not modelled. Their values are parameters. Fresh ids are not assumed to be distinct: a collision is the integrity error the database would raise.
- Foreign keys are not enforced, because SQLite does not enforce them by default. The tests send an email as `sender_id`.
- NOT NULL constraints on strings are not modelled, because the typed API always passes strings.
- `api.py` and `server.py` are not modelled. They only forward requests to `database.py` and to the HTTP API.
- `connect_to_server`, `cleanup` and `main` in `client.py` are process and stream lifecycle over libraries that are not part of this model. `cleanup` also names an undefined `exit_stack`.
- The model API client is not modelled. Its replies are the oracle inputs `reply` and `finalReply`. The un-awaited call at `client.py:123` is modelled as the completed response it was meant to be.
- `json.loads` of tool arguments is not modelled: arguments stay an opaque string. A tool is invoked by the requested call. Whether the keyword passed to `call_tool` fits its signature depends on the tool-session library, which is not part of this model.
- Tool-result content kinds other than text are a single `OtherContent` case.
- Python dictionary equality ignores key order, while `PyDict` compares entry sequences. This does not matter to the gate, because a list is never equal to any dictionary.
- MessageStore.GetAllSentMessage: states which messages are returned and how often, but not that they keep table order.
- MessageStore.InboxRows: states which rows are returned and how often, but not that they keep table order.
- MessageStore.ViewInbox: entries follow `InboxRows` position by position, so the ordering gap of `InboxRows` carries over.
- MessageStore.UnreadRows: states which rows are returned and how often, but not that they keep table order. The query at `database.py:168-170` has no `ORDER BY`.
- MessageStore.GetUnreadMessage: views follow `UnreadRows` position by position, so the ordering gap of `UnreadRows` carries over.
- MessageStore.MessageRows: states which rows are returned and how often, but not that they keep table order. The query at `database.py:187` has no `ORDER BY`.
- MessageStore.GetMessageWithRecipients: statuses follow `MessageRows` position by position, so the ordering gap of `MessageRows` carries over.
