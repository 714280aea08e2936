/**
 * The Gemini chat orchestration of `llm.py`: configuration checks, conversion
 * of the role-tagged message list into a system instruction and a Gemini
 * history, the single fallback to `gemini-1.5-flash`, reply extraction and
 * error wrapping.
 *
 * The google-generativeai library is an oracle (`Client`): every call it
 * would receive is recorded in order as a `Call`, so that the contracts can
 * speak about which provider calls happen and with what arguments.
 */
module Llm {
  import opened Wrappers
  import opened Text

  // ---------------------------------------------------------------------
  // Input messages and configuration
  // ---------------------------------------------------------------------

  /** A caller's `{role, content}` dictionary; either key may be missing or None. */
  datatype Message = Message(role: Option<string>, content: Option<string>)

  /** One entry of the Gemini history: `{"role": role, "parts": parts}`. */
  datatype Turn = Turn(role: string, parts: seq<string>)

  /** The environment variables `chat` reads; `None` is an unset variable. */
  datatype Config = Config(
    provider: Option<string>,      // PROVIDER
    geminiApiKey: Option<string>,  // GEMINI_API_KEY
    googleApiKey: Option<string>,  // GOOGLE_API_KEY
    geminiModel: Option<string>)   // GEMINI_MODEL

  const DefaultModel: string := "gemini-1.5-flash"
  const FallbackModel: string := "gemini-1.5-flash"

  // The messages of the LLMError raised by `chat`.
  const ProviderError: string := "Set PROVIDER=gemini pada .env"
  const MissingKeyError: string := "GEMINI_API_KEY tidak ditemukan. Set di .env"
  const EmptyMessagesError: string := "Pesan kosong"
  const MissingLibraryError: string :=
    "Pustaka google-generativeai belum terpasang. Jalankan: pip install google-generativeai"
  const NoReplyError: string := "Tidak ada teks balasan dari Gemini."
  const WrapPrefix: string := "Gemini error: "

  /** `os.getenv("PROVIDER", "gemini").lower()` */
  function ProviderName(cfg: Config): string {
    Lower(cfg.provider.GetOr("gemini"))
  }

  /** `os.getenv("GEMINI_API_KEY") or os.getenv("GOOGLE_API_KEY")`, kept only when truthy. */
  function ApiKey(cfg: Config): (key: Option<string>)
    ensures key.Some? <==> Truthy(cfg.geminiApiKey) || Truthy(cfg.googleApiKey)
    ensures Truthy(cfg.geminiApiKey) ==> key == cfg.geminiApiKey
    ensures !Truthy(cfg.geminiApiKey) && key.Some? ==> key == cfg.googleApiKey
  {
    if Truthy(cfg.geminiApiKey) then cfg.geminiApiKey
    else if Truthy(cfg.googleApiKey) then cfg.googleApiKey
    else None
  }

  /** `os.getenv("GEMINI_MODEL", "gemini-1.5-flash").strip()` */
  function ModelName(cfg: Config): string {
    Strip(cfg.geminiModel.GetOr(DefaultModel))
  }

  /** The three checks made before anything else, in their order: provider, key, messages. */
  function CheckConfig(cfg: Config, messages: seq<Message>): (err: Option<string>)
    ensures err.None? <==> ProviderName(cfg) == "gemini" && ApiKey(cfg).Some? && messages != []
  {
    if ProviderName(cfg) != "gemini" then Some(ProviderError)
    else if ApiKey(cfg).None? then Some(MissingKeyError)
    else if messages == [] then Some(EmptyMessagesError)
    else None
  }

  // ---------------------------------------------------------------------
  // Conversion of the history (all messages but the last)
  // ---------------------------------------------------------------------

  /** `(m.get("content") or "").strip()` */
  function Cleaned(m: Message): string {
    Strip(m.content.GetOr(""))
  }

  predicate IsSystem(m: Message) {
    m.role == Some("system")
  }

  /** The Gemini entry of a kept non-system message. */
  function ToTurn(m: Message): Turn {
    Turn(if m.role == Some("user") then "user" else "model", [Cleaned(m)])
  }

  /** The stripped, non-empty contents of the system messages of `h`, in order. */
  function SystemParts(h: seq<Message>): (parts: seq<string>)
    ensures |parts| <= |h|
    ensures forall k :: 0 <= k < |parts| ==> parts[k] != ""
  {
    if h == [] then []
    else
      var m := h[|h| - 1];
      SystemParts(h[..|h| - 1]) + (if IsSystem(m) && Cleaned(m) != "" then [Cleaned(m)] else [])
  }

  /** The Gemini history made of the non-system messages of `h` whose content is not blank. */
  function Converted(h: seq<Message>): (turns: seq<Turn>)
    ensures |turns| <= |h|
    ensures forall k :: 0 <= k < |turns| ==>
      (turns[k].role == "user" || turns[k].role == "model") &&
      |turns[k].parts| == 1 && turns[k].parts[0] != ""
  {
    if h == [] then []
    else
      var m := h[|h| - 1];
      Converted(h[..|h| - 1]) + (if !IsSystem(m) && Cleaned(m) != "" then [ToTurn(m)] else [])
  }

  /** Python's `"\n".join(parts)`, built up from the back as the loop builds it. */
  function JoinLines(parts: seq<string>): string {
    if parts == [] then ""
    else if |parts| == 1 then parts[0]
    else JoinLines(parts[..|parts| - 1]) + "\n" + parts[|parts| - 1]
  }

  /** `"\n".join` unfolded from the front: the first part, then a newline before each later part. */
  lemma {:induction false} JoinLinesCons(p: string, ps: seq<string>)
    ensures JoinLines([p] + ps) == if ps == [] then p else p + "\n" + JoinLines(ps)
    decreases |ps|
  {
    if ps != [] {
      var q := ps[..|ps| - 1];
      assert ([p] + ps)[..|ps|] == [p] + q;
      JoinLinesCons(p, q);
    }
  }

  /** Joining one more part adds a newline only when there already were parts. */
  lemma JoinLinesSnoc(parts: seq<string>, p: string)
    ensures JoinLines(parts + [p]) == JoinLines(parts) + ((if parts == [] then "" else "\n") + p)
  {
    assert (parts + [p])[..|parts|] == parts;
    if parts == [] {
      assert "" + ("" + p) == p;
    }
  }

  /** A join of non-empty parts is empty exactly when there are no parts. */
  lemma JoinLinesEmpty(parts: seq<string>)
    requires forall k :: 0 <= k < |parts| ==> parts[k] != ""
    ensures JoinLines(parts) == "" <==> parts == []
  {
  }

  /** The conversion loop of `chat`: it grows the system instruction and appends to the history. */
  method ConvertHistory(history: seq<Message>) returns (instruction: string, converted: seq<Turn>)
    ensures instruction == JoinLines(SystemParts(history))
    ensures converted == Converted(history)
  {
    instruction, converted := "", [];
    ghost var done: seq<Message> := [];
    var i := 0;
    while i < |history|
      invariant 0 <= i <= |history| && done == history[..i]
      invariant instruction == JoinLines(SystemParts(done))
      invariant converted == Converted(done)
    {
      var m := history[i];
      var content := Strip(m.content.GetOr(""));
      if content != "" {
        if m.role == Some("system") {
          SystemStep(done, m);
          instruction := instruction + ((if instruction == "" then "" else "\n") + content);
        } else {
          converted := converted + [Turn(if m.role == Some("user") then "user" else "model", [content])];
          TurnStep(done, m);
        }
      } else {
        BlankStep(done, m);
      }
      done := done + [m];
      i := i + 1;
    }
    assert done == history;
  }

  /** One more message adds at most one system part or one history entry. */
  lemma ConversionSnoc(h: seq<Message>, m: Message)
    ensures SystemParts(h + [m]) ==
      SystemParts(h) + (if IsSystem(m) && Cleaned(m) != "" then [Cleaned(m)] else [])
    ensures Converted(h + [m]) ==
      Converted(h) + (if !IsSystem(m) && Cleaned(m) != "" then [ToTurn(m)] else [])
  {
    assert (h + [m])[..|h|] == h;
  }

  /** A non-blank system message adds its content to the instruction, after a newline when it is not the first. */
  lemma SystemStep(done: seq<Message>, m: Message)
    requires IsSystem(m) && Cleaned(m) != ""
    ensures JoinLines(SystemParts(done + [m])) ==
      JoinLines(SystemParts(done)) + ((if JoinLines(SystemParts(done)) == "" then "" else "\n") + Cleaned(m))
    ensures Converted(done + [m]) == Converted(done)
  {
    ConversionSnoc(done, m);
    JoinLinesEmpty(SystemParts(done));
    JoinLinesSnoc(SystemParts(done), Cleaned(m));
    assert Converted(done) + [] == Converted(done);
  }

  /** A non-blank message of any other role becomes one more history entry. */
  lemma TurnStep(done: seq<Message>, m: Message)
    requires !IsSystem(m) && Cleaned(m) != ""
    ensures SystemParts(done + [m]) == SystemParts(done)
    ensures Converted(done + [m]) == Converted(done) + [ToTurn(m)]
  {
    ConversionSnoc(done, m);
    assert SystemParts(done) + [] == SystemParts(done);
  }

  /** A message whose content is blank is skipped. */
  lemma BlankStep(done: seq<Message>, m: Message)
    requires Cleaned(m) == ""
    ensures SystemParts(done + [m]) == SystemParts(done)
    ensures Converted(done + [m]) == Converted(done)
  {
    ConversionSnoc(done, m);
    assert SystemParts(done) + [] == SystemParts(done);
    assert Converted(done) + [] == Converted(done);
  }

  /** Keeping the system contents distributes over concatenation: order is kept. */
  lemma {:induction false} SystemPartsAppend(a: seq<Message>, b: seq<Message>)
    ensures SystemParts(a + b) == SystemParts(a) + SystemParts(b)
    decreases |b|
  {
    if b != [] {
      var b' := b[..|b| - 1];
      assert (a + b)[..|a + b| - 1] == a + b';
      SystemPartsAppend(a, b');
    } else {
      assert a + b == a;
    }
  }

  /** Converting distributes over concatenation: one entry per kept message, in order. */
  lemma {:induction false} ConvertedAppend(a: seq<Message>, b: seq<Message>)
    ensures Converted(a + b) == Converted(a) + Converted(b)
    decreases |b|
  {
    if b != [] {
      var b' := b[..|b| - 1];
      assert (a + b)[..|a + b| - 1] == a + b';
      ConvertedAppend(a, b');
    } else {
      assert a + b == a;
    }
  }

  /** An entry is in the converted history exactly when some non-blank non-system message produced it. */
  lemma {:induction false} ConvertedMembers(h: seq<Message>, t: Turn)
    ensures t in Converted(h) <==>
      exists i :: 0 <= i < |h| && !IsSystem(h[i]) && Cleaned(h[i]) != "" && ToTurn(h[i]) == t
    decreases |h|
  {
    if h != [] {
      var h', m := h[..|h| - 1], h[|h| - 1];
      assert h == h' + [m];
      ConversionSnoc(h', m);
      ConvertedMembers(h', t);
      if t in Converted(h') {
        var i :| 0 <= i < |h'| && !IsSystem(h'[i]) && Cleaned(h'[i]) != "" && ToTurn(h'[i]) == t;
        assert h[i] == h'[i];
      } else if exists i :: 0 <= i < |h| && !IsSystem(h[i]) && Cleaned(h[i]) != "" && ToTurn(h[i]) == t {
        var i :| 0 <= i < |h| && !IsSystem(h[i]) && Cleaned(h[i]) != "" && ToTurn(h[i]) == t;
        assert i == |h'|;
      }
    }
  }

  /** The number of messages of `h` whose content is blank. */
  function CountBlank(h: seq<Message>): nat {
    if h == [] then 0
    else CountBlank(h[..|h| - 1]) + (if Cleaned(h[|h| - 1]) == "" then 1 else 0)
  }

  /** Every message of the history is a system part, a history entry or dropped as blank. */
  lemma {:induction false} ConversionPartition(h: seq<Message>)
    ensures |SystemParts(h)| + |Converted(h)| + CountBlank(h) == |h|
    decreases |h|
  {
    if h != [] {
      ConversionPartition(h[..|h| - 1]);
    }
  }

  // ---------------------------------------------------------------------
  // The request sent to the provider
  // ---------------------------------------------------------------------

  /** The system instruction, the history and the text sent for the current turn. */
  datatype Request = Request(instruction: string, history: seq<Turn>, input: string)

  /** `last_msg.get("content", "")`, then `last_input or " "`: sent as it is, never empty. */
  function LastInput(m: Message): (text: string)
    ensures text != ""
    ensures Truthy(m.content) ==> text == m.content.value
    ensures !Truthy(m.content) ==> text == " "
  {
    if Truthy(m.content) then m.content.value else " "
  }

  function BuildRequest(messages: seq<Message>): Request
    requires messages != []
  {
    var history := messages[..|messages| - 1];
    Request(JoinLines(SystemParts(history)), Converted(history), LastInput(messages[|messages| - 1]))
  }

  /** The last message never reaches the instruction or the history, whatever its role. */
  lemma LastMessageIgnored(messages: seq<Message>, last: Message)
    requires messages != []
    ensures var other := messages[..|messages| - 1] + [last];
      BuildRequest(other).instruction == BuildRequest(messages).instruction &&
      BuildRequest(other).history == BuildRequest(messages).history &&
      BuildRequest(other).input == LastInput(last)
  {
    var other := messages[..|messages| - 1] + [last];
    assert other[..|other| - 1] == messages[..|messages| - 1];
  }

  /** `[system "S", user "U1", assistant "A1", user "U2"]` gives "S", `[user U1, model A1]` and "U2". */
  lemma WorkedExample()
    ensures BuildRequest([Message(Some("system"), Some("S")), Message(Some("user"), Some("U1")),
                          Message(Some("assistant"), Some("A1")), Message(Some("user"), Some("U2"))])
         == Request("S", [Turn("user", ["U1"]), Turn("model", ["A1"])], "U2")
  {
    var s, u1, a1 := Message(Some("system"), Some("S")), Message(Some("user"), Some("U1")),
                     Message(Some("assistant"), Some("A1"));
    var ms := [s, u1, a1, Message(Some("user"), Some("U2"))];
    assert ms[..3] == [s, u1, a1];
    ExampleHistory(s, u1, a1);
  }

  /** The conversion step of the worked example, one message at a time. */
  lemma ExampleHistory(s: Message, u1: Message, a1: Message)
    requires s == Message(Some("system"), Some("S")) && u1 == Message(Some("user"), Some("U1"))
    requires a1 == Message(Some("assistant"), Some("A1"))
    ensures SystemParts([s, u1, a1]) == ["S"]
    ensures Converted([s, u1, a1]) == [Turn("user", ["U1"]), Turn("model", ["A1"])]
  {
    ExampleCleaned(s, u1, a1);
    ConversionSnoc([], s);
    assert [] + [s] == [s];
    ConversionSnoc([s], u1);
    assert [s] + [u1] == [s, u1];
    ConversionSnoc([s, u1], a1);
    assert [s, u1] + [a1] == [s, u1, a1];
  }

  lemma ExampleCleaned(s: Message, u1: Message, a1: Message)
    requires s == Message(Some("system"), Some("S")) && u1 == Message(Some("user"), Some("U1"))
    requires a1 == Message(Some("assistant"), Some("A1"))
    ensures Cleaned(s) == "S" && Cleaned(u1) == "U1" && Cleaned(a1) == "A1"
    ensures IsSystem(s) && !IsSystem(u1) && !IsSystem(a1)
    ensures ToTurn(u1) == Turn("user", ["U1"]) && ToTurn(a1) == Turn("model", ["A1"])
  {
    StripClean("S");
    StripClean("U1");
    StripClean("A1");
  }

  // ---------------------------------------------------------------------
  // Reply extraction
  // ---------------------------------------------------------------------

  datatype Part = Part(text: Option<string>)
  datatype Content = Content(parts: seq<Part>)
  datatype Candidate = Candidate(content: Option<Content>)
  /** What `send_message` returns: a top-level `text` and a list of candidates. */
  datatype Response = Response(text: Option<string>, candidates: seq<Candidate>)

  /** `getattr(c, "content", None) and c.content.parts` */
  predicate HasParts(c: Candidate) {
    c.content.Some? && c.content.value.parts != []
  }

  /** `"".join(getattr(p, "text", "") for p in parts)` */
  function PartsText(parts: seq<Part>): string {
    if parts == [] then "" else parts[0].text.GetOr("") + PartsText(parts[1..])
  }

  /** The index of the first candidate that has parts, if any. */
  function FirstWithParts(cs: seq<Candidate>): (r: Option<nat>)
    ensures r.Some? ==>
      r.value < |cs| && HasParts(cs[r.value]) && forall j :: 0 <= j < r.value ==> !HasParts(cs[j])
    ensures r.None? ==> forall j :: 0 <= j < |cs| ==> !HasParts(cs[j])
  {
    if cs == [] then None
    else if HasParts(cs[0]) then Some(0)
    else match FirstWithParts(cs[1..])
      case Some(i) => Some(i + 1)
      case None => None
  }

  /** The reply `chat` extracts from a response, or the LLMError it raises. */
  function Reply(resp: Response): Result<string> {
    if Truthy(resp.text) then Ok(Strip(resp.text.value))
    else match FirstWithParts(resp.candidates)
      case Some(i) => Ok(Strip(PartsText(resp.candidates[i].content.value.parts)))
      case None => Err(NoReplyError)
  }

  /** The scan of `chat` over the response: top-level text first, then the first candidate with parts. */
  method ExtractReply(resp: Response) returns (r: Result<string>)
    ensures r == Reply(resp)
    ensures Truthy(resp.text) ==> r == Ok(Strip(resp.text.value))
    ensures !Truthy(resp.text) ==>
      (r.Ok? <==> exists j :: 0 <= j < |resp.candidates| && HasParts(resp.candidates[j]))
    ensures !Truthy(resp.text) && r.Ok? ==>
      exists j :: 0 <= j < |resp.candidates| && HasParts(resp.candidates[j]) &&
        (forall k :: 0 <= k < j ==> !HasParts(resp.candidates[k])) &&
        r.value == Strip(PartsText(resp.candidates[j].content.value.parts))
    ensures r.Err? ==> r.error == NoReplyError
  {
    if Truthy(resp.text) {
      return Ok(Strip(resp.text.value));
    }
    var cs := resp.candidates;
    var i := 0;
    while i < |cs|
      invariant 0 <= i <= |cs|
      invariant forall j :: 0 <= j < i ==> !HasParts(cs[j])
    {
      var c := cs[i];
      if c.content.Some? && c.content.value.parts != [] {
        return Ok(Strip(PartsText(c.content.value.parts)));
      }
      i := i + 1;
    }
    return Err(NoReplyError);
  }

  // ---------------------------------------------------------------------
  // The provider library as an oracle, and the calls made to it
  // ---------------------------------------------------------------------

  /** The two call conventions of `GenerativeModel`: positional name, or `model_name=`. */
  datatype Form = Positional | Keyword

  /** A foreign exception: whether it is a TypeError, and `str(e)`. */
  datatype Exception = Exception(isTypeError: bool, text: string)

  datatype Sent = Replied(response: Response) | SendFailed(exc: Exception)

  /**
   * What the library does for each call: `configure(api_key)`, `GenerativeModel`
   * (model name, call form, system instruction), `start_chat(history)` on a
   * model, and `send_message(text)` on a session of a model.
   */
  datatype Client = Client(
    installed: bool,
    configure: string -> Option<Exception>,
    newModel: (string, Form, Option<string>) -> Option<Exception>,
    startChat: (string, seq<Turn>) -> Option<Exception>,
    sendMessage: (string, string) -> Sent)

  datatype Call =
    | Configure(apiKey: string)
    | NewModel(model: string, form: Form, instruction: Option<string>)
    | StartChat(model: string, history: seq<Turn>)
    | SendMessage(model: string, text: string)

  /** `system_instruction or None` */
  function InstructionArg(instruction: string): (arg: Option<string>)
    ensures arg.None? <==> instruction == ""
    ensures instruction != "" ==> arg == Some(instruction)
  {
    if instruction == "" then None else Some(instruction)
  }

  /** The calls one model construction made, and the exception that escaped it. */
  datatype Construction = Construction(calls: seq<Call>, failure: Option<Exception>)

  /** `GenerativeModel` tried positionally first, and with `model_name=` only after a TypeError. */
  function ConstructModel(client: Client, model: string, instruction: Option<string>): (c: Construction)
    ensures 1 <= |c.calls| <= 2 && c.calls[0] == NewModel(model, Positional, instruction)
    ensures |c.calls| == 2 <==>
      client.newModel(model, Positional, instruction).Some? &&
      client.newModel(model, Positional, instruction).value.isTypeError
    ensures |c.calls| == 2 ==>
      c.calls[1] == NewModel(model, Keyword, instruction) && c.failure == client.newModel(model, Keyword, instruction)
    ensures |c.calls| == 1 ==> c.failure == client.newModel(model, Positional, instruction)
  {
    var first := client.newModel(model, Positional, instruction);
    if first.Some? && first.value.isTypeError then
      Construction([NewModel(model, Positional, instruction), NewModel(model, Keyword, instruction)],
                   client.newModel(model, Keyword, instruction))
    else
      Construction([NewModel(model, Positional, instruction)], first)
  }

  /** The test of line 80: the lowercased error text mentions "not found" or "unsupported". */
  predicate FallbackTriggered(text: string) {
    Contains(Lower(text), "not found") || Contains(Lower(text), "unsupported")
  }

  /** How opening a chat session ended: on which model, or with which exception. */
  datatype Opening =
    | Opened(calls: seq<Call>, model: string)
    | Failed(calls: seq<Call>, exc: Exception)

  /** Build the model, start the chat; on a "not found"/"unsupported" error, do both once more on the fallback model. */
  function OpenSession(client: Client, model: string, instruction: Option<string>, history: seq<Turn>): Opening
  {
    var built := ConstructModel(client, model, instruction);
    if built.failure.Some? then Failed(built.calls, built.failure.value)
    else
      var started := built.calls + [StartChat(model, history)];
      match client.startChat(model, history)
      case None => Opened(started, model)
      case Some(e) =>
        if !FallbackTriggered(e.text) then Failed(started, e)
        else
          var rebuilt := ConstructModel(client, FallbackModel, instruction);
          if rebuilt.failure.Some? then Failed(started + rebuilt.calls, rebuilt.failure.value)
          else
            var restarted := started + rebuilt.calls + [StartChat(FallbackModel, history)];
            match client.startChat(FallbackModel, history)
            case None => Opened(restarted, FallbackModel)
            case Some(e2) => Failed(restarted, e2)
  }

  /** `LLMError(f"Gemini error: {e}")` */
  function Wrap(e: Exception): (msg: string)
    ensures WrapPrefix <= msg && msg[|WrapPrefix|..] == e.text
  {
    WrapPrefix + e.text
  }

  /** The calls made by one `chat` and what it returned or raised. */
  datatype Outcome = Outcome(calls: seq<Call>, result: Result<string>)

  /** The provider block of `chat` (lines 52-115): every foreign exception becomes a wrapped LLMError. */
  function Converse(client: Client, key: string, model: string, req: Request): Outcome
  {
    var configured := [Configure(key)];
    match client.configure(key)
    case Some(e) => Outcome(configured, Err(Wrap(e)))
    case None =>
      match OpenSession(client, model, InstructionArg(req.instruction), req.history)
      case Failed(calls, e) => Outcome(configured + calls, Err(Wrap(e)))
      case Opened(calls, m) =>
        var sent := configured + calls + [SendMessage(m, req.input)];
        match client.sendMessage(m, req.input)
        case SendFailed(e) => Outcome(sent, Err(Wrap(e)))
        case Replied(resp) => Outcome(sent, Reply(resp))
  }

  /** What `chat(messages)` does under configuration `cfg` with library `client`. */
  function ChatSpec(cfg: Config, client: Client, messages: seq<Message>): Outcome {
    match CheckConfig(cfg, messages)
    case Some(err) => Outcome([], Err(err))
    case None =>
      if !client.installed then Outcome([], Err(MissingLibraryError))
      else Converse(client, ApiKey(cfg).value, ModelName(cfg), BuildRequest(messages))
  }

  /** `chat`: checks, conversion loop, library calls, reply scan. */
  method Chat(cfg: Config, client: Client, messages: seq<Message>) returns (calls: seq<Call>, result: Result<string>)
    ensures Outcome(calls, result) == ChatSpec(cfg, client, messages)
  {
    var err := CheckConfig(cfg, messages);
    if err.Some? {
      return [], Err(err.value);
    }
    var instruction, history := ConvertHistory(messages[..|messages| - 1]);
    var input := LastInput(messages[|messages| - 1]);
    if !client.installed {
      return [], Err(MissingLibraryError);
    }
    var key := ApiKey(cfg).value;
    calls := [Configure(key)];
    var configError := client.configure(key);
    if configError.Some? {
      return calls, Err(Wrap(configError.value));
    }
    var session := OpenSession(client, ModelName(cfg), InstructionArg(instruction), history);
    calls := calls + session.calls;
    if session.Failed? {
      return calls, Err(Wrap(session.exc));
    }
    calls := calls + [SendMessage(session.model, input)];
    var sent := client.sendMessage(session.model, input);
    if sent.SendFailed? {
      return calls, Err(Wrap(sent.exc));
    }
    result := ExtractReply(sent.response);
  }
}

