/**
 The incremental request protocol of the Codex provider. A request is built in full; when the remembered
 context matches, only the new end of `input` is sent together with the id of the response it continues.
 */
module Incremental {
  import opened Wrappers
  import opened Json
  import opened Text
  import opened ResponsesInput
  import opened ProviderErrors
  import Replay

  // ----- Full requests -----

  datatype SendRequest = SendRequest(
    reset: bool,
    messages: seq<Message>,
    settings: Settings)

  /** Everything a request says besides its messages. */
  datatype Settings = Settings(
    model: string,
    systemPrompt: Option<string>,
    tools: seq<Value>,
    reasoning: Option<Value>,
    serviceTier: Option<string>,
    cacheKey: string,
    installationId: string,
    windowId: string)

  function With(fields: Fields, key: string, value: Option<Value>): Fields {
    if value.Some? then fields[key := value.value] else fields
  }

  function PromptField(prompt: Option<string>): Option<Value> {
    if prompt.Some? && Trim(prompt.value) != "" then Some(Str(prompt.value)) else None
  }

  function TierField(tier: Option<string>): Option<Value> {
    if tier.Some? then Some(Str(tier.value)) else None
  }

  /** The fields `build_payload` sets besides `input`. */
  function SettingsFields(s: Settings): Fields {
    var base := map[
      "model" := Str(s.model),
      "include" := Arr(if s.reasoning.Some? then [Str("reasoning.encrypted_content")] else []),
      "store" := Bool(false), "stream" := Bool(true), "tool_choice" := Str("auto"),
      "parallel_tool_calls" := Bool(true), "prompt_cache_key" := Str(s.cacheKey),
      "client_metadata" := Obj(map["x-codex-installation-id" := Str(s.installationId),
                                   "x-codex-window-id" := Str(s.windowId)])];
    With(With(With(With(base, "instructions", PromptField(s.systemPrompt)),
                   "tools", if s.tools == [] then None else Some(Arr(s.tools))),
              "reasoning", s.reasoning),
         "service_tier", TierField(s.serviceTier))
  }

  function BuildPayload(r: SendRequest): Fields {
    SettingsFields(r.settings)["input" := Arr(BuildInput(r.messages))]
  }

  lemma {:induction false} PayloadFields(r: SendRequest)
    ensures InputItems(BuildPayload(r)) == Some(BuildInput(r.messages))
    ensures "previous_response_id" !in BuildPayload(r)
    ensures WithoutInput(BuildPayload(r)) == SettingsFields(r.settings)
  {
    assert "input" !in SettingsFields(r.settings);
  }

  // ----- The incremental form -----

  datatype Remembered = Remembered(requestWithoutInput: Fields, baseline: seq<Value>, responseId: string)

  function InputItems(payload: Fields): Option<seq<Value>> {
    AsArr(Get(Obj(payload), "input"))
  }

  function WithoutInput(payload: Fields): Fields {
    payload - {"input"}
  }

  predicate Matches(context: Option<Remembered>, payload: Fields) {
    && context.Some? && InputItems(payload).Some?
    && context.value.requestWithoutInput == WithoutInput(payload)
    && context.value.baseline <= InputItems(payload).value
  }

  /** `incremental_response_create_payload`. */
  function WirePayload(context: Option<Remembered>, payload: Fields): Fields {
    if Matches(context, payload) then
      payload["input" := Arr(InputItems(payload).value[|context.value.baseline|..])]
             ["previous_response_id" := Str(context.value.responseId)]
    else payload
  }

  /** `response_id_from_event`. */
  function ResponseId(response: Value): Option<string> {
    var nested := Get(response, "response");
    (if nested.Some? then StrField(nested.value, "id") else None)
    .Or(StrField(response, "response_id")).Or(StrField(response, "id"))
  }

  /** `record_incremental_response_context`. */
  function Recorded(payload: Fields, response: Value): Option<Remembered> {
    if ResponseId(response).None? || InputItems(payload).None? then None
    else Some(Remembered(WithoutInput(payload),
                         InputItems(payload).value + CanonicalOutput(OutputItems(response)),
                         ResponseId(response).value))
  }

  // ----- The server -----

  /**
   What the service remembers: under each response id the input that response stands for, which is the input
   of its request followed by its output in input form. Entries are never changed. `log` keeps every request
   that reached it, the send it came from and what the service took it to mean.
   */
  datatype Server = Server(stored: map<string, seq<Value>>, log: seq<Received>)

  datatype Received = Received(origin: SendRequest, wire: Fields, meant: Option<Fields>)

  /** The full request a wire request stands for; None when it continues an unknown response. */
  function Meaning(stored: map<string, seq<Value>>, wire: Fields): Option<Fields> {
    if "previous_response_id" !in wire then Some(wire)
    else
      var previous, input := StrField(Obj(wire), "previous_response_id"), InputItems(wire);
      if previous.Some? && input.Some? && previous.value in stored then
        Some((wire - {"previous_response_id"})["input" := Arr(stored[previous.value] + input.value)])
      else None
  }

  /** How an exchange ends for the client. `Lost` may still have produced a response on the service. */
  datatype Outcome =
    | NotSent(error: ProviderError)
    | Lost(error: ProviderError, produced: Option<Value>)
    | Completed(response: Value)

  function Produced(outcome: Outcome): Option<Value> {
    match outcome
    case NotSent(_) => None
    case Lost(_, produced) => produced
    case Completed(response) => Some(response)
  }

  predicate FreshId(server: Server, outcome: Outcome) {
    var produced := Produced(outcome);
    produced.Some? && ResponseId(produced.value).Some? ==> ResponseId(produced.value).value !in server.stored
  }

  /** Any outcome is possible, except that unknown ids are refused and ids are not issued twice. */
  function Answer(server: Server, wire: Fields, wanted: Outcome): Outcome {
    if wanted.NotSent? then wanted
    else if Meaning(server.stored, wire).None? then
      Lost(InvalidResponse("Previous response resp_ not found"), None)
    else if !FreshId(server, wanted) then Lost(OtherError, None)
    else wanted
  }

  function After(server: Server, origin: SendRequest, wire: Fields, answer: Outcome): Server {
    if answer.NotSent? then server
    else
      var meant, produced := Meaning(server.stored, wire), Produced(answer);
      var entry := Received(origin, wire, meant);
      if meant.Some? && InputItems(meant.value).Some? && produced.Some? && ResponseId(produced.value).Some? then
        Server(server.stored[ResponseId(produced.value).value :=
                 InputItems(meant.value).value + CanonicalOutput(OutputItems(produced.value))],
               server.log + [entry])
      else Server(server.stored, server.log + [entry])
  }

  // ----- Sending -----

  /** The provider's two mutex fields and the service it talks to. A cached socket belongs to one window. */
  datatype World = World(socket: Option<string>, context: Option<Remembered>, server: Server)

  /** What happens on one attempt: a connection error when a connection is needed, else an exchange. */
  datatype Attempt = Attempt(connect: Option<ProviderError>, wanted: Outcome)

  /** What happens during one `send_with_auth`: two attempts at most, then the conversion to a message. */
  datatype Try = Try(first: Attempt, second: Attempt, conversion: Option<ProviderError>)

  datatype Environment = Environment(
    auth: Option<ProviderError>,
    first: Try,
    refresh: Option<ProviderError>,
    second: Try)

  type Sent = Result<Value, ProviderError>

  /** The reconnect loop over the attempts that are left. */
  function Attempts(w: World, r: SendRequest, wire: Fields, connected: bool, attempts: seq<Attempt>): (World, Sent)
    requires attempts != []
    decreases |attempts|
  {
    var now := attempts[0];
    if !connected && now.connect.Some? then (w, Err(now.connect.value))
    else
      var answer := Answer(w.server, wire, now.wanted);
      var server := After(w.server, r, wire, answer);
      match answer
      case Completed(response) =>
        (World(Some(r.settings.windowId), Recorded(BuildPayload(r), response), server), Ok(response))
      case _ =>
        if IsTransport(answer.error) && |attempts| > 1 then
          Attempts(World(None, w.context, server), r, wire, false, attempts[1..])
        else (w.(server := server), Err(answer.error))
  }

  function SendWithAuth(w: World, r: SendRequest, try: Try): (World, Sent) {
    var wire := WirePayload(w.context, BuildPayload(r));
    var (after, sent) :=
      Attempts(w.(socket := None), r, wire, w.socket == Some(r.settings.windowId), [try.first, try.second]);
    (after, if sent.Ok? && try.conversion.Some? then Err(try.conversion.value) else sent)
  }

  function SendOnce(w: World, r: SendRequest, env: Environment): (World, Sent) {
    var ready := if r.reset then w.(context := None) else w;
    if env.auth.Some? then (ready, Err(env.auth.value))
    else
      var (after, sent) := SendWithAuth(ready, r, env.first);
      if sent.Ok? then (after, sent)
      else if IsUnauthorized(sent.error) then
        if env.refresh.Some? then (after.(socket := None), Err(env.refresh.value))
        else SendWithAuth(after.(socket := None), r, env.second)
      else if IsPreviousNotFound(sent.error) then
        SendWithAuth(after.(context := None), r, env.second)
      else (after, sent)
  }

  /** What can happen to a provider over its life. */
  datatype Op = Send(request: SendRequest, env: Environment) | BeforeRetry(error: ProviderError)

  function Step(w: World, op: Op): World {
    match op
    case Send(request, env) => SendOnce(w, request, env).0
    case BeforeRetry(error) => if error.WebSocket? then w.(socket := None) else w
  }

  function Run(w: World, ops: seq<Op>): World
    decreases |ops|
  {
    if ops == [] then w else Run(Step(w, ops[0]), ops[1..])
  }

  const START: World := World(None, None, Server(map[], []))

  // ----- Refinement -----

  /** The remembered response stands for exactly the remembered baseline. */
  predicate ContextFaithful(context: Option<Remembered>, stored: map<string, seq<Value>>) {
    context.Some? ==> context.value.responseId in stored && stored[context.value.responseId] == context.value.baseline
  }

  /** Every request the service received meant the full request of the send it came from. */
  predicate LogFaithful(log: seq<Received>) {
    forall i | 0 <= i < |log| :: log[i].meant == Some(BuildPayload(log[i].origin))
  }

  predicate Faithful(w: World) {
    ContextFaithful(w.context, w.server.stored) && LogFaithful(w.server.log)
  }

  /** The incremental form denotes the full form. */
  lemma {:induction false} WireMeansFull(context: Option<Remembered>, stored: map<string, seq<Value>>, r: SendRequest)
    requires ContextFaithful(context, stored)
    ensures Meaning(stored, WirePayload(context, BuildPayload(r))) == Some(BuildPayload(r))
  {
    var payload := BuildPayload(r);
    PayloadFields(r);
    if Matches(context, payload) {
      var wire, baseline := WirePayload(context, payload), context.value.baseline;
      var rest := InputItems(payload).value[|baseline|..];
      assert baseline + rest == InputItems(payload).value;
      assert InputItems(wire) == Some(rest);
      assert StrField(Obj(wire), "previous_response_id") == Some(context.value.responseId);
      assert (wire - {"previous_response_id"})["input" := Arr(baseline + rest)] == payload;
    }
  }

  /** A received request with the right meaning keeps the log and every stored entry. */
  lemma {:induction false} AfterKeeps(server: Server, r: SendRequest, wire: Fields, wanted: Outcome)
    requires LogFaithful(server.log) && Meaning(server.stored, wire) == Some(BuildPayload(r))
    ensures var answer := Answer(server, wire, wanted);
            var after := After(server, r, wire, answer);
            && LogFaithful(after.log)
            && (forall id | id in server.stored :: id in after.stored && after.stored[id] == server.stored[id])
            && (answer.Completed? ==> ContextFaithful(Recorded(BuildPayload(r), answer.response), after.stored))
  {
    PayloadFields(r);
  }

  lemma {:induction false} AttemptsKeep(w: World, r: SendRequest, wire: Fields, connected: bool, attempts: seq<Attempt>)
    requires attempts != [] && Faithful(w)
    requires Meaning(w.server.stored, wire) == Some(BuildPayload(r))
    ensures Faithful(Attempts(w, r, wire, connected, attempts).0)
    decreases |attempts|
  {
    var now := attempts[0];
    if connected || now.connect.None? {
      var answer := Answer(w.server, wire, now.wanted);
      var server := After(w.server, r, wire, answer);
      AfterKeeps(w.server, r, wire, now.wanted);
      if !answer.Completed? && IsTransport(answer.error) && |attempts| > 1 {
        MeaningKept(w.server.stored, server.stored, wire);
        AttemptsKeep(World(None, w.context, server), r, wire, false, attempts[1..]);
      }
    }
  }

  lemma {:induction false} MeaningKept(before: map<string, seq<Value>>, after: map<string, seq<Value>>, wire: Fields)
    requires Meaning(before, wire).Some?
    requires forall id | id in before :: id in after && after[id] == before[id]
    ensures Meaning(after, wire) == Meaning(before, wire)
  {
  }

  lemma {:induction false} SendWithAuthKeeps(w: World, r: SendRequest, try: Try)
    requires Faithful(w)
    ensures Faithful(SendWithAuth(w, r, try).0)
  {
    WireMeansFull(w.context, w.server.stored, r);
    AttemptsKeep(w.(socket := None), r, WirePayload(w.context, BuildPayload(r)),
                 w.socket == Some(r.settings.windowId), [try.first, try.second]);
  }

  /** One send, whatever happens during it, keeps the provider and the service in step. */
  lemma {:induction false} SendOnceKeeps(w: World, r: SendRequest, env: Environment)
    requires Faithful(w)
    ensures Faithful(SendOnce(w, r, env).0)
  {
    var ready := if r.reset then w.(context := None) else w;
    if env.auth.None? {
      SendWithAuthKeeps(ready, r, env.first);
      var (after, sent) := SendWithAuth(ready, r, env.first);
      SendWithAuthKeeps(after.(socket := None), r, env.second);
      SendWithAuthKeeps(after.(context := None), r, env.second);
    }
  }

  lemma {:induction false} RunKeeps(w: World, ops: seq<Op>)
    requires Faithful(w)
    ensures Faithful(Run(w, ops))
    decreases |ops|
  {
    if ops != [] {
      match ops[0] {
        case Send(request, env) => SendOnceKeeps(w, request, env);
        case BeforeRetry(_) =>
      }
      RunKeeps(Step(w, ops[0]), ops[1..]);
    }
  }

  /**
   Incremental sending refines full sending: over every run of sends, resets, reconnects, token refreshes and
   retries, the service takes each request it receives for exactly the full request of that send.
   */
  lemma {:induction false} IncrementalRefinesFull(ops: seq<Op>)
    ensures LogFaithful(Run(START, ops).server.log)
    ensures ContextFaithful(Run(START, ops).context, Run(START, ops).server.stored)
  {
    RunKeeps(START, ops);
  }

  // ----- What a send leaves behind -----

  lemma {:induction false} AttemptsRecord(w: World, r: SendRequest, wire: Fields, connected: bool,
                                          attempts: seq<Attempt>)
    requires attempts != []
    ensures var (after, sent) := Attempts(w, r, wire, connected, attempts);
            && (sent.Ok? ==> after.context == Recorded(BuildPayload(r), sent.value)
                             && after.socket == Some(r.settings.windowId))
            && (sent.Err? ==> after.context == w.context && after.socket in {None, w.socket})
    decreases |attempts|
  {
    var now := attempts[0];
    if connected || now.connect.None? {
      var answer := Answer(w.server, wire, now.wanted);
      if !answer.Completed? && IsTransport(answer.error) && |attempts| > 1 {
        AttemptsRecord(World(None, w.context, After(w.server, r, wire, answer)), r, wire, false, attempts[1..]);
      }
    }
  }

  /** A send that returns a response leaves that response as the remembered context and its socket in the cache. */
  lemma {:induction false} SendOnceRecords(w: World, r: SendRequest, env: Environment)
    ensures var (after, sent) := SendOnce(w, r, env);
            sent.Ok? ==> after.context == Recorded(BuildPayload(r), sent.value)
                         && after.socket == Some(r.settings.windowId)
  {
    var ready := if r.reset then w.(context := None) else w;
    if env.auth.None? {
      var (after, sent) := SendWithAuth(ready, r, env.first);
      SendWithAuthRecords(ready, r, env.first);
      SendWithAuthRecords(after.(socket := None), r, env.second);
      SendWithAuthRecords(after.(context := None), r, env.second);
    }
  }

  lemma {:induction false} SendWithAuthRecords(w: World, r: SendRequest, try: Try)
    ensures var (after, sent) := SendWithAuth(w, r, try);
            sent.Ok? ==> after.context == Recorded(BuildPayload(r), sent.value)
                         && after.socket == Some(r.settings.windowId)
  {
    AttemptsRecord(w.(socket := None), r, WirePayload(w.context, BuildPayload(r)),
                   w.socket == Some(r.settings.windowId), [try.first, try.second]);
  }

  /** The log of one `send_with_auth`: at most two requests, both the same bytes. */
  lemma {:induction false} AttemptsLog(w: World, r: SendRequest, wire: Fields, connected: bool, attempts: seq<Attempt>)
    requires attempts != []
    ensures var log := Attempts(w, r, wire, connected, attempts).0.server.log;
            && w.server.log <= log && |log| <= |w.server.log| + |attempts|
            && forall i | |w.server.log| <= i < |log| :: log[i].origin == r && log[i].wire == wire
    decreases |attempts|
  {
    hide Meaning, InputItems, ResponseId, Produced, FreshId, CanonicalOutput, IsTransport, Recorded, BuildPayload;
    var now := attempts[0];
    if connected || now.connect.None? {
      var answer := Answer(w.server, wire, now.wanted);
      if !answer.Completed? && IsTransport(answer.error) && |attempts| > 1 {
        AttemptsLog(World(None, w.context, After(w.server, r, wire, answer)), r, wire, false, attempts[1..]);
      }
    }
  }

  /**
   One send puts at most four requests on the wire, all of them for that send, and when the service has lost the
   previous response the retry is the full request.
   */
  lemma {:induction false} SendOnceLog(w: World, r: SendRequest, env: Environment)
    ensures var log := SendOnce(w, r, env).0.server.log;
            && w.server.log <= log && |log| <= |w.server.log| + 4
            && forall i | |w.server.log| <= i < |log| :: log[i].origin == r
    ensures var (between, sent) := SendWithAuth(if r.reset then w.(context := None) else w, r, env.first);
            var log := SendOnce(w, r, env).0.server.log;
            env.auth.None? && sent.Err? && !IsUnauthorized(sent.error) && IsPreviousNotFound(sent.error) ==>
              forall i | |between.server.log| <= i < |log| :: log[i].wire == BuildPayload(r)
  {
    var ready := if r.reset then w.(context := None) else w;
    if env.auth.None? {
      SendWithAuthLog(ready, r, env.first);
      var (after, sent) := SendWithAuth(ready, r, env.first);
      SendWithAuthLog(after.(socket := None), r, env.second);
      SendWithAuthLog(after.(context := None), r, env.second);
    }
  }

  lemma {:induction false} SendWithAuthLog(w: World, r: SendRequest, try: Try)
    ensures var log := SendWithAuth(w, r, try).0.server.log;
            && w.server.log <= log && |log| <= |w.server.log| + 2
            && forall i | |w.server.log| <= i < |log| ::
                 log[i].origin == r && log[i].wire == WirePayload(w.context, BuildPayload(r))
  {
    AttemptsLog(w.(socket := None), r, WirePayload(w.context, BuildPayload(r)),
                w.socket == Some(r.settings.windowId), [try.first, try.second]);
  }

  /**
   The next turn. After a send of `r` that returned `response` (see SendOnceRecords for what is then remembered), a
   request with the same settings that continues the conversation with the parsed message and some new messages goes
   out as the new items alone exactly when the canonical output items replay.
   */
  lemma {:induction false} NextTurnSendsOnlyNewItems(r: SendRequest, response: Value, show: Value -> string,
                                                     news: seq<Message>)
    requires ResponseId(response).Some?
    requires NoImages(OutputItems(response)) && ParseOutput(OutputItems(response), show).Some?
    ensures var canonical := CanonicalOutput(OutputItems(response));
            var reply := Message(Assistant, ParseOutput(OutputItems(response), show).value);
            var next := r.(messages := r.messages + [reply] + news);
            var onlyNew := BuildPayload(next)["input" := Arr(BuildInput(news))]
                                             ["previous_response_id" := Str(ResponseId(response).value)];
            WirePayload(Recorded(BuildPayload(r), response), BuildPayload(next)) == onlyNew
            <==> Replay.AllReplayable(canonical) && Replay.ReasoningFirst(canonical)
                 && Replay.NoAdjacentMessages(canonical)
  {
    var output, context := OutputItems(response), Recorded(BuildPayload(r), response);
    var data := ParseOutput(output, show).value;
    var next := r.(messages := r.messages + [Message(Assistant, data)] + news);
    PayloadFields(r);
    PayloadFields(next);
    InputOfNextTurn(r.messages, data, news);
    SuffixIsNew(BuildInput(r.messages), CanonicalOutput(output), Replay.ReplayItems(data), BuildInput(news));
    Replay.RoundTrip(output, show);
    WireIsOnlyNew(context, next, BuildInput(news), ResponseId(response).value);
  }

  /**
   After a send of `r` that returned `response`, any next request goes out in full if and only if its settings differ
   or the remembered baseline is not a prefix of its input.
   */
  lemma {:induction false} NextTurnSendsFull(r: SendRequest, response: Value, next: SendRequest)
    requires ResponseId(response).Some?
    ensures var baseline := BuildInput(r.messages) + CanonicalOutput(OutputItems(response));
            WirePayload(Recorded(BuildPayload(r), response), BuildPayload(next)) == BuildPayload(next)
            <==> SettingsFields(r.settings) != SettingsFields(next.settings) || !(baseline <= BuildInput(next.messages))
  {
    hide SettingsFields, BuildPayload, BuildInput, CanonicalOutput, OutputItems, ResponseId;
    PayloadFields(r);
    PayloadFields(next);
    assert "previous_response_id" !in BuildPayload(next);
  }

  lemma {:induction false} InputOfNextTurn(messages: seq<Message>, data: seq<Item>, news: seq<Message>)
    ensures BuildInput(messages + [Message(Assistant, data)] + news)
         == BuildInput(messages) + Replay.ReplayItems(data) + BuildInput(news)
  {
    var reply := Message(Assistant, data);
    BuildInputConcat(messages + [reply], news);
    BuildInputConcat(messages, [reply]);
    BuildInputCons(reply, []);
    assert [reply] + [] == [reply] && BuildInput([]) == [];
    assert MessageInput(reply) + [] == MessageInput(reply);
  }

  lemma {:induction false} SuffixIsNew(past: seq<Value>, canonical: seq<Value>, replayed: seq<Value>, news: seq<Value>)
    ensures var input := past + replayed + news;
            (past + canonical <= input && input[|past + canonical|..] == news) <==> replayed == canonical
  {
    var input := past + replayed + news;
    if replayed == canonical {
      assert input[..|past + canonical|] == past + canonical;
    }
    if past + canonical <= input && input[|past + canonical|..] == news {
      assert |canonical| == |replayed|;
      assert input[..|past + canonical|] == past + replayed;
      assert replayed == (past + replayed)[|past|..] && canonical == (past + canonical)[|past|..];
    }
  }

  lemma {:induction false} WireIsOnlyNew(context: Option<Remembered>, next: SendRequest, news: seq<Value>, id: string)
    requires context.Some? && context.value.responseId == id
    requires context.value.requestWithoutInput == WithoutInput(BuildPayload(next))
    ensures var payload, input := BuildPayload(next), BuildInput(next.messages);
            WirePayload(context, payload) == payload["input" := Arr(news)]["previous_response_id" := Str(id)]
            <==> context.value.baseline <= input && input[|context.value.baseline|..] == news
  {
    var payload := BuildPayload(next);
    PayloadFields(next);
    var onlyNew := payload["input" := Arr(news)]["previous_response_id" := Str(id)];
    if WirePayload(context, payload) == onlyNew {
      assert "previous_response_id" in onlyNew;
      assert onlyNew["input"] == Arr(news);
      assert WirePayload(context, payload)["input"] == Arr(InputItems(payload).value[|context.value.baseline|..]);
    }
  }
}
