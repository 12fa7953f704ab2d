/** The query orchestration of client.py: the adapter from the tool server's
    catalog to function declarations (get_mcp_tools) and one run of
    process_query, with the language model's two replies and the tool
    server's results passed in as oracle values instead of being fetched.

    A run records what the client sends out (model requests, tool
    invocations), the conversation it builds and what it returns.
 */
module McpClient {
  import opened Wrappers

  /** JSON values, for tool input schemas. */
  datatype Json =
    | JNull
    | JBool(b: bool)
    | JNumber(n: int)
    | JString(s: string)
    | JArray(items: seq<Json>)
    | JObject(fields: seq<(string, Json)>)

  /** A tool as the tool server lists it. */
  datatype ToolDescriptor = ToolDescriptor(name: string, description: Option<string>, inputSchema: Json)

  /** A function declaration as the model API expects it:
      {"type": kind, "function": {"name", "description", "parameters"}}. */
  datatype FunctionSpec = FunctionSpec(name: string, description: Option<string>, parameters: Json)
  datatype ToolDecl = ToolDecl(kind: string, spec: FunctionSpec)

  /** A tool call the model asks for; its arguments stay an uninterpreted
      JSON text. */
  datatype ToolCall = ToolCall(id: string, name: string, arguments: string)

  /** One content block of a tool result. */
  datatype ContentBlock = TextContent(text: string) | OtherContent(kind: string)
  datatype ToolResult = ToolResult(content: seq<ContentBlock>)

  /** The assistant message of a model reply; an empty call list stands for
      both a missing and an empty `tool_calls`. */
  datatype AssistantMessage = AssistantMessage(content: Option<string>, toolCalls: seq<ToolCall>)

  datatype Turn =
    | UserTurn(content: string)
    | AssistantTurn(message: AssistantMessage)
    | ToolTurn(toolCallId: string, content: string)

  datatype ToolChoice = Auto | NoTools

  datatype ModelRequest = ModelRequest(model: string, messages: seq<Turn>, tools: seq<ToolDecl>, toolChoice: ToolChoice)

  /** The run aborts when a tool result has no leading text block, since the
      client reads the text of the first content block unconditionally. */
  datatype QueryError = ToolResultWithoutText(callId: string)

  /** Everything one process_query run sends and returns. */
  datatype QueryRun = QueryRun(
    requests: seq<ModelRequest>,
    invoked: seq<ToolCall>,
    transcript: seq<Turn>,
    answer: Result<Option<string>, QueryError>)

  const ModelName: string := "gpt-4o"

  // ---------------------------------------------------------------------------
  // Catalog adapter
  // ---------------------------------------------------------------------------

  function Adapt(t: ToolDescriptor): ToolDecl {
    ToolDecl("function", FunctionSpec(t.name, t.description, t.inputSchema))
  }

  /** One function declaration per tool, in catalog order, with name,
      description and schema copied unchanged. */
  function GetMcpTools(catalog: seq<ToolDescriptor>): (decls: seq<ToolDecl>)
    ensures |decls| == |catalog|
    ensures forall i :: 0 <= i < |catalog| ==>
              && decls[i].kind == "function"
              && decls[i].spec.name == catalog[i].name
              && decls[i].spec.description == catalog[i].description
              && decls[i].spec.parameters == catalog[i].inputSchema
  {
    if |catalog| == 0 then []
    else [Adapt(catalog[0])] + GetMcpTools(catalog[1..])
  }

  /** Reads a declaration back as the tool it declares. */
  function Unadapt(d: ToolDecl): ToolDescriptor {
    ToolDescriptor(d.spec.name, d.spec.description, d.spec.parameters)
  }

  function UnadaptAll(decls: seq<ToolDecl>): (catalog: seq<ToolDescriptor>)
    ensures |catalog| == |decls|
    ensures forall i :: 0 <= i < |decls| ==> catalog[i] == Unadapt(decls[i])
  {
    if |decls| == 0 then [] else [Unadapt(decls[0])] + UnadaptAll(decls[1..])
  }

  /** The adapter loses nothing: the catalog can be read back from the
      declarations, so names and schemas offered to the model are exactly the
      ones the tool server advertised. */
  lemma AdapterRoundTrip(catalog: seq<ToolDescriptor>)
    ensures UnadaptAll(GetMcpTools(catalog)) == catalog
  {
    var back := UnadaptAll(GetMcpTools(catalog));
    assert forall i :: 0 <= i < |catalog| ==> back[i] == catalog[i];
  }

  // ---------------------------------------------------------------------------
  // Tool round
  // ---------------------------------------------------------------------------

  /** The text of a result's first content block, if it is a text block. */
  function FirstText(res: ToolResult): (t: Option<string>)
    ensures t.Some? <==> |res.content| > 0 && res.content[0].TextContent?
    ensures t.Some? ==> t.value == res.content[0].text
  {
    if |res.content| > 0 && res.content[0].TextContent? then Some(res.content[0].text) else None
  }

  /** Every result has a leading text block. */
  predicate AllText(results: seq<ToolResult>) {
    forall j :: 0 <= j < |results| ==> FirstText(results[j]).Some?
  }

  /** What the loop over the requested calls produced: the calls invoked, one
      tool turn per completed call, and the error that stopped it, if any. */
  datatype Round = Round(invoked: seq<ToolCall>, turns: seq<Turn>, failure: Option<QueryError>)

  /** Invokes the calls in the model's order, `results[j]` being the server's
      answer to `calls[j]`, and appends one tool turn per call; stops right
      after the first call whose result has no leading text block. */
  function ToolRound(calls: seq<ToolCall>, results: seq<ToolResult>): (r: Round)
    requires |results| == |calls|
    ensures |r.turns| <= |r.invoked| <= |calls|
    ensures r.failure.None? <==> AllText(results)
    ensures r.failure.None? ==> r.invoked == calls && |r.turns| == |calls|
    ensures r.failure.Some? ==>
              && |r.invoked| == |r.turns| + 1
              && r.invoked == calls[..|r.invoked|]
              && FirstText(results[|r.turns|]).None?
              && r.failure.value == ToolResultWithoutText(calls[|r.turns|].id)
    ensures forall j :: 0 <= j < |r.turns| ==>
              FirstText(results[j]).Some?
              && r.turns[j] == ToolTurn(calls[j].id, FirstText(results[j]).value)
  {
    if |calls| == 0 then Round([], [], None)
    else
      match FirstText(results[0])
      case None => Round([calls[0]], [], Some(ToolResultWithoutText(calls[0].id)))
      case Some(text) =>
        var rest := ToolRound(calls[1..], results[1..]);
        assert AllText(results) <==> AllText(results[1..]) by {
          if AllText(results[1..]) {
            forall j | 0 <= j < |results| ensures FirstText(results[j]).Some? {
              if j > 0 { assert results[j] == results[1..][j - 1]; }
            }
          }
        }
        Round([calls[0]] + rest.invoked, [ToolTurn(calls[0].id, text)] + rest.turns, rest.failure)
  }

  // ---------------------------------------------------------------------------
  // process_query
  // ---------------------------------------------------------------------------

  /** The conversation's first two turns: the query and the model's reply. */
  function Opening(query: string, reply: AssistantMessage): seq<Turn> {
    [UserTurn(query), AssistantTurn(reply)]
  }

  /** One run of process_query. `reply` and `finalReply` are the model's two
      answers, `results[j]` is the tool server's answer to the j-th requested
      call, and `gate` is the check that decides whether the requested calls
      are executed at all. */
  function ProcessQuery(query: string, catalog: seq<ToolDescriptor>, reply: AssistantMessage,
                        results: seq<ToolResult>, finalReply: AssistantMessage,
                        gate: (seq<ToolCall>, seq<ToolDecl>) -> bool): (run: QueryRun)
    requires |results| == |reply.toolCalls|
    // the first request: the single user turn, every catalog tool, free tool choice
    ensures |run.requests| >= 1
    ensures run.requests[0] == ModelRequest(ModelName, [UserTurn(query)], GetMcpTools(catalog), Auto)
    // the transcript opens with the query and the reply, then holds tool turns only
    ensures |run.transcript| >= 2 && run.transcript[..2] == Opening(query, reply)
    ensures |run.transcript| - 2 <= |run.invoked| <= |reply.toolCalls|
    ensures forall j :: 0 <= j < |run.transcript| - 2 ==>
              FirstText(results[j]).Some?
              && run.transcript[2 + j] == ToolTurn(run.invoked[j].id, FirstText(results[j]).value)
    ensures run.invoked == reply.toolCalls[..|run.invoked|]
    // no tool calls: the reply's content is the answer and nothing else is sent
    ensures |reply.toolCalls| == 0 ==>
              run.answer == Success(reply.content) && run.invoked == []
              && |run.requests| == 1 && |run.transcript| == 2
    // the gate rejects the calls: nothing is invoked
    ensures |reply.toolCalls| > 0 && !gate(reply.toolCalls, GetMcpTools(catalog)) ==>
              run.invoked == [] && |run.transcript| == 2
    // the gate admits the calls: each is invoked once, in order, with its turn
    ensures |reply.toolCalls| > 0 && gate(reply.toolCalls, GetMcpTools(catalog)) && AllText(results) ==>
              run.invoked == reply.toolCalls && |run.transcript| == 2 + |reply.toolCalls|
    // a result without a leading text block aborts before the second request
    ensures run.answer.Failure? <==>
              |reply.toolCalls| > 0 && gate(reply.toolCalls, GetMcpTools(catalog)) && !AllText(results)
    ensures run.answer.Failure? ==> |run.requests| == 1 && |run.invoked| == |run.transcript| - 1
    // the abort happens at the last invoked call, the first whose result lacks text
    ensures run.answer.Failure? ==>
              && |run.invoked| >= 1
              && FirstText(results[|run.invoked| - 1]).None?
              && run.answer.error == ToolResultWithoutText(run.invoked[|run.invoked| - 1].id)
    // with tool calls and no abort: a second request without tools decides the answer
    ensures |reply.toolCalls| > 0 && run.answer.Success? ==>
              && |run.requests| == 2
              && run.requests[1] == ModelRequest(ModelName, run.transcript, GetMcpTools(catalog), NoTools)
              && run.answer == Success(finalReply.content)
  {
    var tools := GetMcpTools(catalog);
    var first := ModelRequest(ModelName, [UserTurn(query)], tools, Auto);
    var opening := Opening(query, reply);
    if |reply.toolCalls| == 0 then
      QueryRun([first], [], opening, Success(reply.content))
    else if !gate(reply.toolCalls, tools) then
      QueryRun([first, ModelRequest(ModelName, opening, tools, NoTools)], [], opening, Success(finalReply.content))
    else
      var round := ToolRound(reply.toolCalls, results);
      var transcript := opening + round.turns;
      if round.failure.Some? then
        QueryRun([first], round.invoked, transcript, Failure(round.failure.value))
      else
        QueryRun([first, ModelRequest(ModelName, transcript, tools, NoTools)], round.invoked, transcript,
                 Success(finalReply.content))
  }

  // ---------------------------------------------------------------------------
  // The execution gate
  // ---------------------------------------------------------------------------

  function ToolNames(catalog: seq<ToolDescriptor>): (names: seq<string>)
    ensures |names| == |catalog|
    ensures forall i :: 0 <= i < |catalog| ==> names[i] == catalog[i].name
  {
    seq(|catalog|, i requires 0 <= i < |catalog| => catalog[i].name)
  }

  /** The membership test the gate is meant to be: every requested call names
      a declared tool. */
  predicate NameGate(calls: seq<ToolCall>, tools: seq<ToolDecl>) {
    forall k :: 0 <= k < |calls| ==> exists i :: 0 <= i < |tools| && tools[i].spec.name == calls[k].name
  }

  /** Over adapted declarations the name gate admits exactly the calls that
      name catalog tools. */
  lemma NameGateIsCatalogMembership(calls: seq<ToolCall>, catalog: seq<ToolDescriptor>)
    ensures NameGate(calls, GetMcpTools(catalog)) <==>
              forall k :: 0 <= k < |calls| ==> calls[k].name in ToolNames(catalog)
  {
    var tools := GetMcpTools(catalog);
    var names := ToolNames(catalog);
    if NameGate(calls, tools) {
      forall k | 0 <= k < |calls| ensures calls[k].name in names {
        var i :| 0 <= i < |tools| && tools[i].spec.name == calls[k].name;
        assert names[i] == calls[k].name;
      }
    }
    if forall k :: 0 <= k < |calls| ==> calls[k].name in names {
      forall k | 0 <= k < |calls|
        ensures exists i :: 0 <= i < |tools| && tools[i].spec.name == calls[k].name
      {
        var i :| 0 <= i < |names| && names[i] == calls[k].name;
        assert tools[i].spec.name == calls[k].name;
      }
      assert NameGate(calls, tools);
    }
  }

  /** process_query with the name gate. */
  function AnswerQuery(query: string, catalog: seq<ToolDescriptor>, reply: AssistantMessage,
                       results: seq<ToolResult>, finalReply: AssistantMessage): (run: QueryRun)
    requires |results| == |reply.toolCalls|
    ensures forall c :: c in run.invoked ==> c.name in ToolNames(catalog)
    ensures (forall c :: c in reply.toolCalls ==> c.name in ToolNames(catalog)) && AllText(results) ==>
              run.invoked == reply.toolCalls && |run.transcript| == 2 + |reply.toolCalls|
              && run.answer == (if |reply.toolCalls| == 0 then Success(reply.content) else Success(finalReply.content))
    ensures (exists c :: c in reply.toolCalls && c.name !in ToolNames(catalog)) ==>
              run.invoked == [] && |run.transcript| == 2 && run.answer == Success(finalReply.content)
  {
    NameGateIsCatalogMembership(reply.toolCalls, catalog);
    ProcessQuery(query, catalog, reply, results, finalReply, NameGate)
  }

  // ---------------------------------------------------------------------------
  // The gate as written: `tool_calls in tool_list`
  // ---------------------------------------------------------------------------

  /** Python values, enough to evaluate the written gate: the left operand is
      the list of tool-call objects, the right one the list of declaration
      dictionaries. */
  datatype PyValue =
    | PyNone
    | PyStr(s: string)
    | PyJson(json: Json)
    | PyList(items: seq<PyValue>)
    | PyDict(entries: seq<(string, PyValue)>)
    | PyObject(cls: string, attrs: seq<(string, PyValue)>)

  function PyOptStr(o: Option<string>): PyValue {
    match o
    case None => PyNone
    case Some(s) => PyStr(s)
  }

  function CallValue(c: ToolCall): PyValue {
    PyObject("ChatCompletionMessageToolCall",
             [("id", PyStr(c.id)), ("type", PyStr("function")),
              ("function", PyObject("Function", [("name", PyStr(c.name)), ("arguments", PyStr(c.arguments))]))])
  }

  function DeclValue(d: ToolDecl): PyValue {
    PyDict([("type", PyStr(d.kind)),
            ("function", PyDict([("name", PyStr(d.spec.name)),
                                 ("description", PyOptStr(d.spec.description)),
                                 ("parameters", PyJson(d.spec.parameters))]))])
  }

  /** Python's `x in xs` on a list: some element equals `x`; a list never
      equals a dictionary. */
  predicate PyContains(xs: seq<PyValue>, x: PyValue) {
    exists i :: 0 <= i < |xs| && xs[i] == x
  }

  /** The gate exactly as written: is the whole list of calls an element of
      the list of declarations? */
  predicate AsWrittenGate(calls: seq<ToolCall>, tools: seq<ToolDecl>) {
    PyContains(seq(|tools|, i requires 0 <= i < |tools| => DeclValue(tools[i])),
               PyList(seq(|calls|, k requires 0 <= k < |calls| => CallValue(calls[k]))))
  }

  /** The written gate never passes, so with it no tool is ever executed: any
      run with tool calls goes straight to the second model request. */
  lemma AsWrittenNeverRunsTools(query: string, catalog: seq<ToolDescriptor>, reply: AssistantMessage,
                                results: seq<ToolResult>, finalReply: AssistantMessage)
    requires |results| == |reply.toolCalls|
    requires |reply.toolCalls| > 0
    ensures var run := ProcessQuery(query, catalog, reply, results, finalReply, AsWrittenGate);
            run.invoked == [] && |run.transcript| == 2 && |run.requests| == 2
            && run.answer == Success(finalReply.content)
  {
    var tools := GetMcpTools(catalog);
    var decls := seq(|tools|, i requires 0 <= i < |tools| => DeclValue(tools[i]));
    forall i | 0 <= i < |decls| ensures decls[i].PyDict? {
    }
    assert !AsWrittenGate(reply.toolCalls, tools);
  }

  // ---------------------------------------------------------------------------
  // A worked run
  // ---------------------------------------------------------------------------

  const AddTool := ToolDescriptor("add", Some("Sum of a and b"), JObject([("type", JString("object"))]))
  const AddCall := ToolCall("call_1", "add", "{\"a\": 2, \"b\": 3}")

  /** An illustrative run shaped like the reply and result sketched in
      client.py: one `add` call answered with "5". With the name gate the tool
      runs and the final reply is returned after a three-turn transcript; with
      the gate as written the tool never runs. The query, the tool's description
      and schema, and the final answer text are placeholders. */
  lemma AddExample()
    ensures var reply := AssistantMessage(None, [AddCall]);
            var results := [ToolResult([TextContent("5")])];
            var finalReply := AssistantMessage(Some("2 + 3 = 5"), []);
            var fixed := AnswerQuery("Add 2 and 3.", [AddTool], reply, results, finalReply);
            var written := ProcessQuery("Add 2 and 3.", [AddTool], reply, results, finalReply, AsWrittenGate);
            && fixed.invoked == [AddCall]
            && fixed.transcript == [UserTurn("Add 2 and 3."), AssistantTurn(reply), ToolTurn("call_1", "5")]
            && fixed.answer == Success(Some("2 + 3 = 5"))
            && written.invoked == []
            && |written.transcript| == 2
  {
    var reply := AssistantMessage(None, [AddCall]);
    var results := [ToolResult([TextContent("5")])];
    var finalReply := AssistantMessage(Some("2 + 3 = 5"), []);
    assert AddCall in reply.toolCalls;
    assert ToolNames([AddTool])[0] == "add";
    AsWrittenNeverRunsTools("Add 2 and 3.", [AddTool], reply, results, finalReply);
  }
}
