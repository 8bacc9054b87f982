/** Sending the prompt to the configured model and reading its answer
    (`callLLM`). The transport and the JSON parser belong to the host and are
    parameters: `send` performs one HTTP request, `parse` parses one line of a
    local-generation reply. */
module LlmGateway {
  import opened Wrappers
  import opened Strings
  import opened Settings

  const DefaultLocalEndpoint: string := "http://localhost:11434"
  const GenerateRoute: string := "/api/generate"
  const Temperature: real := 0.7

  datatype Header = Header(name: string, value: string)
  datatype ChatMessage = ChatMessage(role: string, content: string)

  /** The JSON body of a request, one shape per protocol. */
  datatype Body =
    | GenerateBody(prompt: string, model: string, temperature: real)
    | ChatBody(model: string, messages: seq<ChatMessage>, temperature: real)

  datatype Request = Request(verb: string, url: string, headers: seq<Header>, body: Body)

  /** The parts of a chat-completion reply that are read: the first choice's
      message content, each level possibly missing. */
  datatype ReplyMessage = ReplyMessage(content: Option<string>)
  datatype Choice = Choice(message: Option<ReplyMessage>)
  datatype ChatReply = ChatReply(choices: Option<seq<Choice>>)

  /** What the transport hands back: the status, the raw text, and the body
      read as JSON, which fails when the body is not a JSON object. */
  datatype Response = Response(status: int, text: string, json: Result<ChatReply, string>)

  /** One line of a local-generation reply after `JSON.parse`: a syntax error,
      or an object whose `response` field may be missing. */
  datatype LineParse = Malformed(message: string) | Parsed(response: Option<string>)

  datatype GatewayError =
    | Transport(message: string)
    | Rejected(local: bool, status: int)
    | Unparsable(message: string)

  /** The local generation server is used exactly when a local model is named. */
  predicate UsesLocalModel(s: PluginSettings) {
    s.ollamaModel != ""
  }

  function LocalEndpoint(s: PluginSettings): string {
    if s.apiEndpoint == "" then DefaultLocalEndpoint else s.apiEndpoint
  }

  function ChatHeaders(apiKey: string): seq<Header> {
    [Header("Content-Type", "application/json"), Header("Authorization", "Bearer " + apiKey)]
  }

  /** The one request `callLLM` sends for a prompt. */
  function BuildRequest(s: PluginSettings, prompt: string): (r: Request)
    ensures r.verb == "POST"
    ensures r.body.GenerateBody? <==> UsesLocalModel(s)
    ensures r.body.GenerateBody? ==> r.body.prompt == prompt && r.body.model == s.ollamaModel
    ensures r.body.ChatBody? ==>
      && r.body.messages == [ChatMessage("user", prompt)]
      && r.body.model == s.openaiModel
    ensures r.body.temperature == Temperature
  {
    if UsesLocalModel(s) then
      Request("POST", LocalEndpoint(s) + GenerateRoute, [], GenerateBody(prompt, s.ollamaModel, Temperature))
    else
      Request("POST", s.apiEndpoint, ChatHeaders(s.apiKey),
              ChatBody(s.openaiModel, [ChatMessage("user", prompt)], Temperature))
  }

  /** A local model is always reached at its endpoint, or the default one,
      followed by `/api/generate`, and is sent no credential; otherwise the
      configured endpoint is used as it is, with the key as a bearer token. */
  lemma Dispatch(s: PluginSettings, prompt: string)
    ensures UsesLocalModel(s) ==>
      && BuildRequest(s, prompt).url
         == (if s.apiEndpoint == "" then DefaultLocalEndpoint else s.apiEndpoint) + "/api/generate"
      && BuildRequest(s, prompt).headers == []
    ensures !UsesLocalModel(s) ==>
      && BuildRequest(s, prompt).url == s.apiEndpoint
      && Header("Authorization", "Bearer " + s.apiKey) in BuildRequest(s, prompt).headers
  {
    if !UsesLocalModel(s) {
      assert BuildRequest(s, prompt).headers[1] == Header("Authorization", "Bearer " + s.apiKey);
    }
  }

  /** The request reads only the fields of the chosen protocol: the local
      one ignores the key and the chat model, the chat one ignores nothing
      but the local model name (which is empty). */
  lemma RequestReadsOnlyItsFields(s1: PluginSettings, s2: PluginSettings, prompt: string)
    requires s1.ollamaModel == s2.ollamaModel && s1.apiEndpoint == s2.apiEndpoint
    requires !UsesLocalModel(s1) ==> s1.apiKey == s2.apiKey && s1.openaiModel == s2.openaiModel
    ensures BuildRequest(s1, prompt) == BuildRequest(s2, prompt)
  {
  }

  /** Out of the box the chat-completion protocol is used, with model
      `gpt-4o-mini`, an empty endpoint and an empty bearer token. */
  lemma DefaultSettingsUseChat(prompt: string)
    ensures !UsesLocalModel(DefaultSettings)
    ensures BuildRequest(DefaultSettings, prompt)
         == Request("POST", "", ChatHeaders(""),
                    ChatBody("gpt-4o-mini", [ChatMessage("user", prompt)], 0.7))
  {
  }

  /** `response.json.choices?.[0]?.message?.content || ''`. */
  function ChatAnswer(reply: ChatReply): (r: string)
    ensures r != "" ==>
      && reply.choices.Some? && |reply.choices.value| > 0
      && reply.choices.value[0].message.Some?
      && reply.choices.value[0].message.value.content == Some(r)
  {
    if reply.choices.None? || |reply.choices.value| == 0 then ""
    else match reply.choices.value[0].message
      case None => ""
      case Some(m) => if m.content.Some? then m.content.value else ""
  }

  /** A reply without choices, or whose first choice has no message or no
      content, gives the empty answer. */
  lemma MissingChoiceIsEmpty(reply: ChatReply)
    requires || reply.choices.None?
             || reply.choices == Some([])
             || reply.choices.value[0].message.None?
             || reply.choices.value[0].message.value.content.None?
    ensures ChatAnswer(reply) == ""
  {
  }

  /** The first choice's content is the answer, whatever follows it. */
  lemma FirstChoiceIsAnswer(text: string, rest: seq<Choice>)
    ensures ChatAnswer(ChatReply(Some([Choice(Some(ReplyMessage(Some(text))))] + rest))) == text
  {
  }

  // Folding a local-generation reply, written the way the source chains it:
  // split on line breaks, keep the non-empty lines, parse each, take their
  // `response` fields, join them with nothing in between, trim.

  /** `lines.filter(step => step && step.length > 0)` */
  function NonEmptyLines(lines: seq<string>): (r: seq<string>)
    ensures forall k :: 0 <= k < |r| ==> r[k] != ""
    ensures |r| <= |lines|
    decreases |lines|
  {
    if lines == [] then []
    else (if lines[0] == "" then [] else [lines[0]]) + NonEmptyLines(lines[1..])
  }

  /** `.map(step => JSON.parse(step)).map(step => step.response)`: the first
      line that does not parse aborts the whole map. */
  function ParseLines(lines: seq<string>, parse: string -> LineParse): (r: Result<seq<Option<string>>, string>)
    ensures r.Success? ==> |r.value| == |lines|
    ensures r.Success? <==> forall k :: 0 <= k < |lines| ==> parse(lines[k]).Parsed?
    decreases |lines|
  {
    if lines == [] then Success([])
    else match parse(lines[0])
      case Malformed(m) => Failure(m)
      case Parsed(f) =>
        match ParseLines(lines[1..], parse)
        case Failure(m) => Failure(m)
        case Success(fs) => Success([f] + fs)
  }

  /** `Array.prototype.join` writes a missing field as nothing. */
  function FieldText(f: Option<string>): string {
    if f.Some? then f.value else ""
  }

  /** `.join("")` over the fields. */
  function JoinFields(fs: seq<Option<string>>): string
    decreases |fs|
  {
    if fs == [] then "" else FieldText(fs[0]) + JoinFields(fs[1..])
  }

  /** The fragments of the given lines, joined, before trimming. */
  function Gathered(lines: seq<string>, parse: string -> LineParse): Result<string, string> {
    match ParseLines(NonEmptyLines(lines), parse)
    case Failure(m) => Failure(m)
    case Success(fs) => Success(JoinFields(fs))
  }

  /** The answer read from a local-generation reply body. */
  function LocalAnswer(text: string, parse: string -> LineParse): Result<string, string> {
    match Gathered(Split(text, '\n'), parse)
    case Failure(m) => Failure(m)
    case Success(g) => Success(Trim(g))
  }

  lemma {:induction false} NonEmptySnoc(lines: seq<string>, line: string)
    ensures NonEmptyLines(lines + [line]) == NonEmptyLines(lines) + (if line == "" then [] else [line])
    decreases |lines|
  {
    if lines == [] {
      assert NonEmptyLines([line][1..]) == [];
    } else {
      assert (lines + [line])[1..] == lines[1..] + [line];
      NonEmptySnoc(lines[1..], line);
    }
  }

  lemma {:induction false} ParseSnoc(lines: seq<string>, line: string, parse: string -> LineParse)
    ensures ParseLines(lines + [line], parse)
         == match ParseLines(lines, parse)
            case Failure(m) => Failure(m)
            case Success(fs) =>
              match parse(line)
              case Malformed(m) => Failure(m)
              case Parsed(f) => Success(fs + [f])
    decreases |lines|
  {
    if lines == [] {
      assert [line][1..] == [];
      match parse(line)
      case Malformed(_) =>
      case Parsed(f) => assert [f] + [] == [] + [f];
    } else {
      assert (lines + [line])[0] == lines[0];
      assert (lines + [line])[1..] == lines[1..] + [line];
      ParseSnoc(lines[1..], line, parse);
      match parse(lines[0])
      case Malformed(_) =>
      case Parsed(f0) =>
        match ParseLines(lines[1..], parse)
        case Failure(_) =>
        case Success(fs) =>
          match parse(line)
          case Malformed(_) =>
          case Parsed(f) => assert [f0] + (fs + [f]) == [f0] + fs + [f];
    }
  }

  lemma {:induction false} JoinFieldsSnoc(fs: seq<Option<string>>, f: Option<string>)
    ensures JoinFields(fs + [f]) == JoinFields(fs) + FieldText(f)
    decreases |fs|
  {
    if fs == [] {
      assert JoinFields([f][1..]) == "";
    } else {
      assert (fs + [f])[1..] == fs[1..] + [f];
      JoinFieldsSnoc(fs[1..], f);
    }
  }

  /** Gathering one more line: an empty line changes nothing, a malformed one
      fails, any other adds its field at the end. */
  lemma GatheredSnoc(lines: seq<string>, line: string, parse: string -> LineParse)
    ensures Gathered(lines + [line], parse)
         == match Gathered(lines, parse)
            case Failure(m) => Failure(m)
            case Success(g) =>
              if line == "" then Success(g)
              else match parse(line)
                case Malformed(m) => Failure(m)
                case Parsed(f) => Success(g + FieldText(f))
  {
    NonEmptySnoc(lines, line);
    if line == "" {
      assert NonEmptyLines(lines) + [] == NonEmptyLines(lines);
    } else {
      ParseSnoc(NonEmptyLines(lines), line, parse);
      match ParseLines(NonEmptyLines(lines), parse)
      case Failure(_) =>
      case Success(fs) =>
        match parse(line)
        case Malformed(_) =>
        case Parsed(f) => JoinFieldsSnoc(fs, f);
    }
  }

  /** Once a prefix of the lines fails to parse, the whole reply fails with
      the same message. */
  lemma {:induction false} GatheredFailurePersists(lines: seq<string>, i: nat, parse: string -> LineParse)
    requires i <= |lines| && Gathered(lines[..i], parse).Failure?
    ensures Gathered(lines, parse) == Gathered(lines[..i], parse)
    decreases |lines| - i
  {
    if i < |lines| {
      assert lines[..i + 1] == lines[..i] + [lines[i]];
      GatheredSnoc(lines[..i], lines[i], parse);
      GatheredFailurePersists(lines, i + 1, parse);
    } else {
      assert lines[..i] == lines;
    }
  }

  /** One pass over the reply's lines, accumulating the fragments as they
      come, gives the same answer as the chained form. */
  method FoldLocalResponse(text: string, parse: string -> LineParse) returns (r: Result<string, string>)
    ensures r == LocalAnswer(text, parse)
  {
    var lines := Split(text, '\n');
    var acc := "";
    var i := 0;
    assert lines[..0] == [];
    while i < |lines|
      invariant 0 <= i <= |lines|
      invariant Gathered(lines[..i], parse) == Success(acc)
    {
      assert lines[..i + 1] == lines[..i] + [lines[i]];
      GatheredSnoc(lines[..i], lines[i], parse);
      if lines[i] != "" {
        match parse(lines[i])
        case Malformed(m) =>
          GatheredFailurePersists(lines, i + 1, parse);
          return Failure(m);
        case Parsed(f) =>
          acc := acc + FieldText(f);
      }
      i := i + 1;
    }
    assert lines[..i] == lines;
    return Success(Trim(acc));
  }

  /** A reply made of well-formed lines, each carrying a fragment, reads as
      the fragments run together and trimmed. */
  lemma {:induction false} LocalAnswerOfLines(lines: seq<string>, frags: seq<string>, parse: string -> LineParse)
    requires |lines| >= 1 && |lines| == |frags|
    requires forall k :: 0 <= k < |lines| ==> '\n' !in lines[k] && lines[k] != ""
    requires forall k :: 0 <= k < |lines| ==> parse(lines[k]) == Parsed(Some(frags[k]))
    ensures LocalAnswer(Join(lines, "\n"), parse) == Success(Trim(Join(frags, "")))
  {
    SplitJoin(lines, '\n');
    GatheredOfFragments(lines, frags, parse);
  }

  lemma {:induction false} GatheredOfFragments(lines: seq<string>, frags: seq<string>, parse: string -> LineParse)
    requires |lines| == |frags|
    requires forall k :: 0 <= k < |lines| ==> lines[k] != ""
    requires forall k :: 0 <= k < |lines| ==> parse(lines[k]) == Parsed(Some(frags[k]))
    ensures Gathered(lines, parse) == Success(Join(frags, ""))
    decreases |lines|
  {
    if lines != [] {
      var n := |lines| - 1;
      assert lines == lines[..n] + [lines[n]];
      GatheredOfFragments(lines[..n], frags[..n], parse);
      GatheredSnoc(lines[..n], lines[n], parse);
      JoinSnoc(frags[..n], frags[n], "");
      assert Join(frags[..n] + [frags[n]], "") == Join(frags[..n], "") + frags[n];
      assert frags[..n] + [frags[n]] == frags;
    }
  }

  /** Blank lines between the reply's lines are skipped. */
  lemma BlankLineIgnored(before: seq<string>, after: seq<string>, parse: string -> LineParse)
    ensures Gathered(before + [""] + after, parse) == Gathered(before + after, parse)
  {
    NonEmptyAppend(before, [""] + after);
    NonEmptyAppend(before, after);
    assert NonEmptyLines([""] + after) == NonEmptyLines(after) by {
      assert ([""] + after)[1..] == after;
    }
    assert before + [""] + after == before + ([""] + after);
  }

  lemma {:induction false} NonEmptyAppend(a: seq<string>, b: seq<string>)
    ensures NonEmptyLines(a + b) == NonEmptyLines(a) + NonEmptyLines(b)
    decreases |a|
  {
    if a == [] {
      assert a + b == b;
    } else {
      assert (a + b)[1..] == a[1..] + b;
      NonEmptyAppend(a[1..], b);
    }
  }

  /** `callLLM(prompt)`: one request; any status other than 200 fails; the
      answer is read according to the protocol of the request. */
  function CallLLM(s: PluginSettings, prompt: string,
                   send: Request -> Result<Response, string>,
                   parse: string -> LineParse): (r: Result<string, GatewayError>)
    ensures r.Success? ==>
      && send(BuildRequest(s, prompt)).Success?
      && send(BuildRequest(s, prompt)).value.status == 200
    ensures r.Failure? && r.error.Rejected? ==>
      && r.error.local == UsesLocalModel(s)
      && send(BuildRequest(s, prompt)).Success?
      && send(BuildRequest(s, prompt)).value.status == r.error.status != 200
  {
    match send(BuildRequest(s, prompt))
    case Failure(m) => Failure(Transport(m))
    case Success(resp) =>
      if resp.status != 200 then Failure(Rejected(UsesLocalModel(s), resp.status))
      else if UsesLocalModel(s) then
        match LocalAnswer(resp.text, parse)
        case Failure(m) => Failure(Unparsable(m))
        case Success(a) => Success(a)
      else
        match resp.json
        case Failure(m) => Failure(Unparsable(m))
        case Success(reply) => Success(ChatAnswer(reply))
  }

  /** Every status other than 200 is a rejection, for either protocol, and
      no answer is read from the body. */
  lemma Non200Fails(s: PluginSettings, prompt: string, send: Request -> Result<Response, string>,
                    parse: string -> LineParse)
    requires send(BuildRequest(s, prompt)).Success?
    requires send(BuildRequest(s, prompt)).value.status != 200
    ensures CallLLM(s, prompt, send, parse)
         == Failure(Rejected(UsesLocalModel(s), send(BuildRequest(s, prompt)).value.status))
  {
  }

  /** A reply with status 200 is read by the protocol the request used: the
      local server's lines are gathered and trimmed, the chat reply's first
      choice is taken, and a transport failure is passed on as it is. */
  lemma AcceptedReplyIsRead(s: PluginSettings, prompt: string, send: Request -> Result<Response, string>,
                            parse: string -> LineParse)
    ensures send(BuildRequest(s, prompt)).Failure? ==>
      CallLLM(s, prompt, send, parse) == Failure(Transport(send(BuildRequest(s, prompt)).error))
    ensures var reply := send(BuildRequest(s, prompt));
      reply.Success? && reply.value.status == 200 && UsesLocalModel(s) ==>
        match LocalAnswer(reply.value.text, parse)
        case Success(a) => CallLLM(s, prompt, send, parse) == Success(a)
        case Failure(m) => CallLLM(s, prompt, send, parse) == Failure(Unparsable(m))
    ensures var reply := send(BuildRequest(s, prompt));
      reply.Success? && reply.value.status == 200 && !UsesLocalModel(s) ==>
        match reply.value.json
        case Success(r) => CallLLM(s, prompt, send, parse) == Success(ChatAnswer(r))
        case Failure(m) => CallLLM(s, prompt, send, parse) == Failure(Unparsable(m))
  {
  }

  /** The message of the error `callLLM` catches, which it records before
      rethrowing. */
  function Message(e: GatewayError): string {
    match e
    case Transport(m) => m
    case Rejected(local, status) =>
      (if local then "Ollama request failed: " else "API request failed: ") + IntToString(status)
    case Unparsable(m) => m
  }

  /** The message of the error `callLLM` rethrows. */
  function Describe(e: GatewayError): string {
    "Fail to call LLM API: " + Message(e)
  }

  /** A rejection's message ends with the status code, which reads back
      exactly. */
  lemma RejectionNamesStatus(local: bool, status: int)
    ensures var m := Describe(Rejected(local, status));
      && |m| >= |IntToString(status)|
      && ParseInt(m[|m| - |IntToString(status)|..]) == Some(status)
  {
    var m := Describe(Rejected(local, status));
    assert m == "Fail to call LLM API: " + (if local then "Ollama request failed: " else "API request failed: ")
              + IntToString(status);
    assert m[|m| - |IntToString(status)|..] == IntToString(status);
    ParseIntToString(status);
  }
}
