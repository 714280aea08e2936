/**
 * Properties of `chat` (llm.py), stated over the provider calls it makes and
 * what it returns or raises. Most are proved for the provider block
 * (`Converse`) for any request, then carried over to `ChatSpec`.
 */
module ChatProperties {
  import opened Wrappers
  import opened Text
  import opened Llm

  /** The model names of the `start_chat` calls, in order. */
  function StartedModels(calls: seq<Call>): seq<string> {
    if calls == [] then []
    else (if calls[0].StartChat? then [calls[0].model] else []) + StartedModels(calls[1..])
  }

  /** The number of `send_message` calls. */
  function SendCount(calls: seq<Call>): nat {
    if calls == [] then 0 else (if calls[0].SendMessage? then 1 else 0) + SendCount(calls[1..])
  }

  lemma {:induction false} CountsAppend(a: seq<Call>, b: seq<Call>)
    ensures StartedModels(a + b) == StartedModels(a) + StartedModels(b)
    ensures SendCount(a + b) == SendCount(a) + SendCount(b)
    decreases |a|
  {
    if a == [] {
      assert a + b == b;
    } else {
      var ab := a + b;
      assert ab[0] == a[0];
      assert ab[1..] == a[1..] + b;
      CountsAppend(a[1..], b);
      assert StartedModels(ab) == (if a[0].StartChat? then [a[0].model] else []) + StartedModels(a[1..] + b);
      assert SendCount(ab) == (if a[0].SendMessage? then 1 else 0) + SendCount(a[1..] + b);
    }
  }

  lemma {:induction false} ModelCallsOnly(calls: seq<Call>)
    requires forall i :: 0 <= i < |calls| ==> calls[i].NewModel?
    ensures StartedModels(calls) == [] && SendCount(calls) == 0
    decreases |calls|
  {
    if calls != [] {
      ModelCallsOnly(calls[1..]);
    }
  }

  /** The fallback condition of lines 77-97 for a session on `model`. */
  predicate FallsBack(client: Client, model: string, instruction: Option<string>, history: seq<Turn>) {
    ConstructModel(client, model, instruction).failure.None? &&
    client.startChat(model, history).Some? &&
    FallbackTriggered(client.startChat(model, history).value.text) &&
    ConstructModel(client, FallbackModel, instruction).failure.None?
  }

  /** `start_chat` is called on the configured model, and once more, on the fallback model, only when it fell back. */
  lemma OpeningStarts(client: Client, model: string, instruction: Option<string>, history: seq<Turn>)
    ensures var o := OpenSession(client, model, instruction, history);
      SendCount(o.calls) == 0 &&
      (StartedModels(o.calls) == [] || StartedModels(o.calls) == [model] ||
       StartedModels(o.calls) == [model, FallbackModel])
    ensures var o := OpenSession(client, model, instruction, history);
      |StartedModels(o.calls)| == 2 <==> FallsBack(client, model, instruction, history)
    ensures var o := OpenSession(client, model, instruction, history);
      o.Opened? ==> StartedModels(o.calls) != [] && o.model == StartedModels(o.calls)[|StartedModels(o.calls)| - 1]
  {
    var built := ConstructModel(client, model, instruction);
    var o := OpenSession(client, model, instruction, history);
    ModelCallsOnly(built.calls);
    if built.failure.Some? {
      assert o.calls == built.calls;
    } else {
      var started := built.calls + [StartChat(model, history)];
      CountsAppend(built.calls, [StartChat(model, history)]);
      assert StartedModels(started) == [model] && SendCount(started) == 0;
      match client.startChat(model, history)
      case None =>
        assert o == Opened(started, model);
      case Some(e) =>
        if !FallbackTriggered(e.text) {
          assert o == Failed(started, e);
        } else {
          var rebuilt := ConstructModel(client, FallbackModel, instruction);
          ModelCallsOnly(rebuilt.calls);
          CountsAppend(started, rebuilt.calls);
          if rebuilt.failure.Some? {
            assert o == Failed(started + rebuilt.calls, rebuilt.failure.value);
          } else {
            var restarted := started + rebuilt.calls + [StartChat(FallbackModel, history)];
            CountsAppend(started + rebuilt.calls, [StartChat(FallbackModel, history)]);
            assert o.calls == restarted;
          }
        }
    }
  }

  /** In the provider block: at most two `start_chat` calls, the second one the fallback, and at most one `send_message`. */
  lemma ConverseStarts(client: Client, key: string, model: string, req: Request)
    ensures var o := Converse(client, key, model, req);
      SendCount(o.calls) <= 1 &&
      (StartedModels(o.calls) == [] || StartedModels(o.calls) == [model] ||
       StartedModels(o.calls) == [model, FallbackModel])
    ensures var o := Converse(client, key, model, req);
      |StartedModels(o.calls)| == 2 ==> FallsBack(client, model, InstructionArg(req.instruction), req.history)
  {
    var o := OpenSession(client, model, InstructionArg(req.instruction), req.history);
    OpeningStarts(client, model, InstructionArg(req.instruction), req.history);
    CountsAppend([Configure(key)], o.calls);
    if o.Opened? {
      CountsAppend([Configure(key)] + o.calls, [SendMessage(o.model, req.input)]);
    }
  }

  /** The checks come first and in order; a failing check makes no provider call at all. */
  lemma ChecksComeFirst(cfg: Config, client: Client, messages: seq<Message>)
    ensures ProviderName(cfg) != "gemini" ==>
      ChatSpec(cfg, client, messages) == Outcome([], Err(ProviderError))
    ensures ProviderName(cfg) == "gemini" && ApiKey(cfg).None? ==>
      ChatSpec(cfg, client, messages) == Outcome([], Err(MissingKeyError))
    ensures ProviderName(cfg) == "gemini" && ApiKey(cfg).Some? && messages == [] ==>
      ChatSpec(cfg, client, messages) == Outcome([], Err(EmptyMessagesError))
  {
  }

  /** Once the checks pass and the library is there, `chat` is the provider block on the built request. */
  lemma ChatIsConverse(cfg: Config, client: Client, messages: seq<Message>)
    requires CheckConfig(cfg, messages).None? && client.installed
    ensures ChatSpec(cfg, client, messages) ==
      Converse(client, ApiKey(cfg).value, ModelName(cfg), BuildRequest(messages))
  {
  }

  /** `chat` calls `start_chat` at most twice, the second time on gemini-1.5-flash and only on a fallback error. */
  lemma FallbackAtMostOnce(cfg: Config, client: Client, messages: seq<Message>)
    ensures var o := ChatSpec(cfg, client, messages);
      SendCount(o.calls) <= 1 &&
      (StartedModels(o.calls) == [] || StartedModels(o.calls) == [ModelName(cfg)] ||
       StartedModels(o.calls) == [ModelName(cfg), FallbackModel])
    ensures var o := ChatSpec(cfg, client, messages);
      |StartedModels(o.calls)| == 2 ==>
        messages != [] &&
        FallsBack(client, ModelName(cfg), InstructionArg(BuildRequest(messages).instruction),
                  BuildRequest(messages).history)
  {
    if CheckConfig(cfg, messages).None? && client.installed {
      ChatIsConverse(cfg, client, messages);
      ConverseStarts(client, ApiKey(cfg).value, ModelName(cfg), BuildRequest(messages));
    }
  }

  /** A `start_chat` error that mentions neither "not found" nor "unsupported" is raised, wrapped, without a fallback. */
  lemma NoFallbackOnOtherErrors(client: Client, key: string, model: string, req: Request, e: Exception)
    requires client.configure(key).None?
    requires ConstructModel(client, model, InstructionArg(req.instruction)).failure.None?
    requires client.startChat(model, req.history) == Some(e)
    requires !FallbackTriggered(e.text)
    ensures var o := Converse(client, key, model, req);
      o.result == Err(WrapPrefix + e.text) && StartedModels(o.calls) == [model] && SendCount(o.calls) == 0
  {
    var built := ConstructModel(client, model, InstructionArg(req.instruction));
    var started := built.calls + [StartChat(model, req.history)];
    assert OpenSession(client, model, InstructionArg(req.instruction), req.history) == Failed(started, e);
    ModelCallsOnly(built.calls);
    CountsAppend(built.calls, [StartChat(model, req.history)]);
    CountsAppend([Configure(key)], started);
  }

  /** Every `GenerativeModel(model_name=...)` call directly follows a positional call of the same model that raised TypeError. */
  ghost predicate KeywordAfterTypeError(client: Client, calls: seq<Call>) {
    forall i :: 0 <= i < |calls| && calls[i].NewModel? && calls[i].form == Keyword ==>
      0 < i && calls[i - 1] == NewModel(calls[i].model, Positional, calls[i].instruction) &&
      client.newModel(calls[i].model, Positional, calls[i].instruction).Some? &&
      client.newModel(calls[i].model, Positional, calls[i].instruction).value.isTypeError
  }

  lemma KeywordAppend(client: Client, a: seq<Call>, b: seq<Call>)
    requires KeywordAfterTypeError(client, a) && KeywordAfterTypeError(client, b)
    ensures KeywordAfterTypeError(client, a + b)
  {
    forall i | 0 <= i < |a + b| && (a + b)[i].NewModel? && (a + b)[i].form == Keyword
      ensures 0 < i && (a + b)[i - 1] == NewModel((a + b)[i].model, Positional, (a + b)[i].instruction)
    {
      if i < |a| {
        assert (a + b)[i] == a[i] && (a + b)[i - 1] == a[i - 1];
      } else {
        assert (a + b)[i] == b[i - |a|];
        assert (a + b)[i - 1] == b[i - 1 - |a|];
      }
    }
  }

  lemma OpeningKeywords(client: Client, model: string, instruction: Option<string>, history: seq<Turn>)
    ensures KeywordAfterTypeError(client, OpenSession(client, model, instruction, history).calls)
  {
    var built := ConstructModel(client, model, instruction);
    var rebuilt := ConstructModel(client, FallbackModel, instruction);
    var s1, s2 := [StartChat(model, history)], [StartChat(FallbackModel, history)];
    KeywordAppend(client, built.calls, s1);
    KeywordAppend(client, built.calls + s1, rebuilt.calls);
    KeywordAppend(client, built.calls + s1 + rebuilt.calls, s2);
  }

  /** The keyword form of `GenerativeModel` is only ever tried after the positional form raised TypeError. */
  lemma KeywordOnlyAfterTypeError(cfg: Config, client: Client, messages: seq<Message>)
    ensures KeywordAfterTypeError(client, ChatSpec(cfg, client, messages).calls)
  {
    if CheckConfig(cfg, messages).None? && client.installed {
      ChatIsConverse(cfg, client, messages);
      var key, req := ApiKey(cfg).value, BuildRequest(messages);
      var o := OpenSession(client, ModelName(cfg), InstructionArg(req.instruction), req.history);
      OpeningKeywords(client, ModelName(cfg), InstructionArg(req.instruction), req.history);
      KeywordAppend(client, [Configure(key)], o.calls);
      if o.Opened? {
        KeywordAppend(client, [Configure(key)] + o.calls, [SendMessage(o.model, req.input)]);
      }
    }
  }

  /** A call carries the piece of the request that belongs to it. */
  predicate Carries(c: Call, req: Request) {
    match c
    case Configure(_) => true
    case NewModel(_, _, instruction) => instruction == InstructionArg(req.instruction)
    case StartChat(_, history) => history == req.history
    case SendMessage(_, text) => text == req.input
  }

  lemma OpeningCarries(client: Client, model: string, req: Request)
    ensures forall c :: c in OpenSession(client, model, InstructionArg(req.instruction), req.history).calls ==>
      Carries(c, req) && !c.SendMessage?
  {
  }

  /** In the provider block, each call carries its piece of the request. */
  lemma ConverseCarries(client: Client, key: string, model: string, req: Request)
    ensures forall c :: c in Converse(client, key, model, req).calls ==> Carries(c, req)
  {
    var o := OpenSession(client, model, InstructionArg(req.instruction), req.history);
    OpeningCarries(client, model, req);
    if client.configure(key).None? {
      if o.Opened? {
        assert Converse(client, key, model, req).calls == [Configure(key)] + o.calls + [SendMessage(o.model, req.input)];
      } else {
        assert Converse(client, key, model, req).calls == [Configure(key)] + o.calls;
      }
    }
  }

  /** The instruction, the history and the last input reach `GenerativeModel`, `start_chat` and `send_message` unchanged. */
  lemma RequestReachesProvider(cfg: Config, client: Client, messages: seq<Message>)
    requires messages != []
    ensures forall c :: c in ChatSpec(cfg, client, messages).calls ==> Carries(c, BuildRequest(messages))
  {
    if CheckConfig(cfg, messages).None? && client.installed {
      ChatIsConverse(cfg, client, messages);
      ConverseCarries(client, ApiKey(cfg).value, ModelName(cfg), BuildRequest(messages));
    }
  }

  /** Before any provider call, `chat` fails only with one of its own LLMError messages. */
  lemma FailuresBeforeProvider(cfg: Config, client: Client, messages: seq<Message>)
    ensures var o := ChatSpec(cfg, client, messages);
      o.calls == [] ==>
        o.result.Err? && o.result.error in {ProviderError, MissingKeyError, EmptyMessagesError, MissingLibraryError}
  {
  }

  /** Inside the provider block, a failure is the no-reply LLMError, unchanged, or a foreign exception wrapped as "Gemini error: ...". */
  lemma ConverseErrorsWrapped(client: Client, key: string, model: string, req: Request)
    ensures var o := Converse(client, key, model, req);
      o.calls != [] && o.calls[0] == Configure(key) &&
      (o.result.Err? ==> o.result.error == NoReplyError || WrapPrefix <= o.result.error)
  {
  }

  /** A top-level reply text of only whitespace is truthy, so it is returned, stripped to the empty string. */
  lemma WhitespaceReplyIsEmpty(resp: Response)
    requires Truthy(resp.text)
    requires forall i :: 0 <= i < |resp.text.value| ==> IsSpace(resp.text.value[i])
    ensures Reply(resp) == Ok("")
  {
    StripEmptyIffBlank(resp.text.value);
  }

  /** A reply is returned only after one `send_message`, and it is already stripped. */
  lemma ConverseReplyStripped(client: Client, key: string, model: string, req: Request)
    ensures var o := Converse(client, key, model, req);
      o.result.Ok? ==>
        o.calls[|o.calls| - 1].SendMessage? && Strip(o.result.value) == o.result.value
  {
    var s := OpenSession(client, model, InstructionArg(req.instruction), req.history);
    if client.configure(key).None? && s.Opened? {
      match client.sendMessage(s.model, req.input)
      case Replied(resp) =>
        if Truthy(resp.text) {
          StripIdempotent(resp.text.value);
        } else if FirstWithParts(resp.candidates).Some? {
          var i := FirstWithParts(resp.candidates).value;
          StripIdempotent(PartsText(resp.candidates[i].content.value.parts));
        }
      case SendFailed(_) =>
    }
  }

  /** What the library answered to one call: it raised, it returned normally, or `send_message` gave a response. */
  datatype Answer = Raised(exc: Exception) | Returned | Responded(response: Response)

  function AnswerTo(client: Client, c: Call): Answer {
    match c
    case Configure(key) =>
      if client.configure(key).Some? then Raised(client.configure(key).value) else Returned
    case NewModel(model, form, instruction) =>
      if client.newModel(model, form, instruction).Some? then Raised(client.newModel(model, form, instruction).value)
      else Returned
    case StartChat(model, history) =>
      if client.startChat(model, history).Some? then Raised(client.startChat(model, history).value) else Returned
    case SendMessage(model, text) =>
      match client.sendMessage(model, text)
      case SendFailed(e) => Raised(e)
      case Replied(resp) => Responded(resp)
  }

  /** The exception that escapes a model construction is the one its last call raised. */
  lemma ConstructionEndsOnAnswer(client: Client, model: string, instruction: Option<string>)
    ensures var c := ConstructModel(client, model, instruction);
      c.failure.Some? ==> AnswerTo(client, c.calls[|c.calls| - 1]) == Raised(c.failure.value)
  {
  }

  /** A failed session opening fails with the exception its last call raised. */
  lemma OpeningEndsOnAnswer(client: Client, model: string, instruction: Option<string>, history: seq<Turn>)
    ensures var o := OpenSession(client, model, instruction, history);
      o.calls != [] && (o.Failed? ==> AnswerTo(client, o.calls[|o.calls| - 1]) == Raised(o.exc))
  {
    var built := ConstructModel(client, model, instruction);
    ConstructionEndsOnAnswer(client, model, instruction);
    if built.failure.None? {
      var started := built.calls + [StartChat(model, history)];
      match client.startChat(model, history)
      case None =>
      case Some(e) =>
        if FallbackTriggered(e.text) {
          var rebuilt := ConstructModel(client, FallbackModel, instruction);
          ConstructionEndsOnAnswer(client, FallbackModel, instruction);
          if rebuilt.failure.Some? {
            assert OpenSession(client, model, instruction, history) ==
              Failed(started + rebuilt.calls, rebuilt.failure.value);
            assert (started + rebuilt.calls)[|started + rebuilt.calls| - 1] == rebuilt.calls[|rebuilt.calls| - 1];
          }
        }
    }
  }

  /** A wrapped exception can never be taken for the no-reply LLMError. */
  lemma WrapIsNotNoReply(e: Exception)
    ensures Wrap(e) != NoReplyError
  {
    assert Wrap(e)[0] == WrapPrefix[0] == 'G';
    assert NoReplyError[0] == 'T';
  }

  /**
   * The result of the provider block is decided by the library's answer to
   * the last call made: an exception from any call is raised wrapped with its
   * text, a response of `send_message` gives the reply extracted from it, and
   * the no-reply LLMError, raised unwrapped, comes exactly from a response
   * with no text and no candidate with parts.
   */
  lemma ConverseResult(client: Client, key: string, model: string, req: Request)
    ensures var o := Converse(client, key, model, req);
      o.calls != [] &&
      var a := AnswerTo(client, o.calls[|o.calls| - 1]);
      !a.Returned? &&
      (a.Raised? ==> o.result == Err(Wrap(a.exc))) &&
      (a.Responded? ==> o.calls[|o.calls| - 1].SendMessage? && o.result == Reply(a.response)) &&
      (o.result == Err(NoReplyError) <==>
         a.Responded? && !Truthy(a.response.text) && FirstWithParts(a.response.candidates).None?)
  {
    var o := Converse(client, key, model, req);
    match client.configure(key)
    case Some(e) =>
      WrapIsNotNoReply(e);
    case None =>
      var s := OpenSession(client, model, InstructionArg(req.instruction), req.history);
      OpeningEndsOnAnswer(client, model, InstructionArg(req.instruction), req.history);
      match s
      case Failed(calls, e) =>
        assert o.calls[|o.calls| - 1] == calls[|calls| - 1];
        WrapIsNotNoReply(e);
      case Opened(calls, m) =>
        match client.sendMessage(m, req.input)
        case SendFailed(e) =>
          WrapIsNotNoReply(e);
        case Replied(resp) =>
  }

  /** Over all of `chat`: once a provider call has been made, the result follows the answer to the last one. */
  lemma ChatResult(cfg: Config, client: Client, messages: seq<Message>)
    ensures var o := ChatSpec(cfg, client, messages);
      o.calls != [] ==>
      var a := AnswerTo(client, o.calls[|o.calls| - 1]);
      !a.Returned? &&
      (a.Raised? ==> o.result == Err(Wrap(a.exc))) &&
      (a.Responded? ==> o.calls[|o.calls| - 1].SendMessage? && o.result == Reply(a.response)) &&
      (o.result == Err(NoReplyError) <==>
         a.Responded? && !Truthy(a.response.text) && FirstWithParts(a.response.candidates).None?)
  {
    if CheckConfig(cfg, messages).None? && client.installed {
      ChatIsConverse(cfg, client, messages);
      ConverseResult(client, ApiKey(cfg).value, ModelName(cfg), BuildRequest(messages));
    }
  }

  /** "404 Not Found", lowercased, contains "not found": such a `start_chat` error triggers the fallback. */
  lemma NotFoundTriggers(text: string)
    requires text == "404 " + "Not " + "Found"
    ensures Lower(text) == "404 not found"
    ensures FallbackTriggered(text)
  {
    NotFoundLower(text);
    NotFoundContains();
  }

  lemma NotFoundLower(text: string)
    requires text == "404 " + "Not " + "Found"
    ensures Lower(text) == "404 not found"
  {
    LowerAppend("404 ", "Not ");
    LowerAppend("404 " + "Not ", "Found");
    NotFoundPieces();
  }

  lemma NotFoundPieces()
    ensures Lower("404 ") == "404 " && Lower("Not ") == "not " && Lower("Found") == "found"
  {
    LowerAppend("N", "ot ");
    LowerAppend("F", "ound");
    assert "N" + "ot " == "Not " && "F" + "ound" == "Found";
    assert Lower("N") == "n" && Lower("F") == "f";
  }

  lemma NotFoundContains()
    ensures Contains("404 not found", "not found")
  {
    ContainsAt("404 not found", "not found", 4);
  }

  /** A library whose `start_chat` rejects "gemini-2.0-flash" with `text` and accepts everything else; it replies " ok ". */
  function RejectingClient(text: string): Client {
    Client(true,
      key => None,
      (model, form, instruction) => None,
      (model, history) => if model == "gemini-2.0-flash" then Some(Exception(false, text)) else None,
      (model, text) => Replied(Response(Some(" ok "), [])))
  }

  /** The calls that open the session in the scenario below: both models built positionally, two `start_chat`s. */
  function ScenarioSession(req: Request): seq<Call> {
    var instruction := InstructionArg(req.instruction);
    [NewModel("gemini-2.0-flash", Positional, instruction), StartChat("gemini-2.0-flash", req.history),
     NewModel(FallbackModel, Positional, instruction), StartChat(FallbackModel, req.history)]
  }

  /** The session of the scenario falls back and opens on gemini-1.5-flash. */
  lemma ScenarioOpens(req: Request, text: string)
    requires FallbackTriggered(text)
    ensures OpenSession(RejectingClient(text), "gemini-2.0-flash", InstructionArg(req.instruction), req.history) ==
      Opened(ScenarioSession(req), FallbackModel)
    ensures StartedModels(ScenarioSession(req)) == ["gemini-2.0-flash", FallbackModel]
  {
    var client := RejectingClient(text);
    var model, instruction := "gemini-2.0-flash", InstructionArg(req.instruction);
    var session := ScenarioSession(req);
    assert model != FallbackModel;
    assert client.newModel(model, Positional, instruction) == None;
    assert client.newModel(FallbackModel, Positional, instruction) == None;
    assert client.startChat(model, req.history) == Some(Exception(false, text));
    assert client.startChat(FallbackModel, req.history) == None;
    assert ConstructModel(client, model, instruction) == Construction([session[0]], None);
    assert ConstructModel(client, FallbackModel, instruction) == Construction([session[2]], None);
    assert FallsBack(client, model, instruction, req.history);
    OpeningStarts(client, model, instruction, req.history);
  }

  /** When GEMINI_MODEL is rejected with a fallback error, the chat moves to gemini-1.5-flash, sends the input there, and returns the stripped reply. */
  lemma FallbackScenario(req: Request, text: string)
    requires FallbackTriggered(text)
    ensures var o := Converse(RejectingClient(text), "k", "gemini-2.0-flash", req);
      StartedModels(o.calls) == ["gemini-2.0-flash", FallbackModel] &&
      o.calls[|o.calls| - 1] == SendMessage(FallbackModel, req.input) &&
      o.result == Ok("ok")
  {
    var client := RejectingClient(text);
    var session := ScenarioSession(req);
    var sent := [Configure("k")] + session + [SendMessage(FallbackModel, req.input)];
    ScenarioOpens(req, text);
    assert client.configure("k") == None;
    assert client.sendMessage(FallbackModel, req.input) == Replied(Response(Some(" ok "), []));
    assert Converse(client, "k", "gemini-2.0-flash", req) == Outcome(sent, Reply(Response(Some(" ok "), [])));
    CountsAppend([Configure("k")], session);
    CountsAppend([Configure("k")] + session, [SendMessage(FallbackModel, req.input)]);
    ScenarioReply();
  }

  /** The scenario's reply " ok " comes back stripped. */
  lemma ScenarioReply()
    ensures Reply(Response(Some(" ok "), [])) == Ok("ok")
  {
    assert " ok "[1..] == "ok ";
    assert "ok "[..2] == "ok";
  }
}
