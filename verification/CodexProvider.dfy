/** The Codex provider as the object it is: two fields updated in place while it talks to the service. */
module CodexProvider {
  import opened Wrappers
  import opened Json
  import opened ResponsesInput
  import opened ProviderErrors
  import opened Incremental

  /** The remote service; `wanted` is what the network and the model would make of the request. */
  class Service {
    var view: Server

    constructor ()
      ensures view == START.server
    {
      view := START.server;
    }

    method Exchange(r: SendRequest, wire: Fields, wanted: Outcome) returns (answer: Outcome)
      modifies this
      ensures answer == Answer(old(view), wire, wanted)
      ensures view == After(old(view), r, wire, answer)
    {
      answer := Answer(view, wire, wanted);
      view := After(view, r, wire, answer);
    }
  }

  class Provider {
    var socket: Option<string>
    var context: Option<Remembered>

    constructor ()
      ensures socket == None && context == None
    {
      socket, context := None, None;
    }

    ghost function Seen(service: Service): World
      reads this, service
    {
      World(socket, context, service.view)
    }

    method ClearSocket()
      modifies this`socket
      ensures socket == None
    {
      socket := None;
    }

    method ClearIncrementalContext()
      modifies this`context
      ensures context == None
    {
      context := None;
    }

    method IncrementalPayload(payload: Fields) returns (wire: Fields)
      ensures wire == WirePayload(context, payload)
    {
      var input := InputItems(payload);
      if input.None? || context.None? {
        return payload;
      }
      var remembered := context.value;
      if remembered.requestWithoutInput != WithoutInput(payload) || !(remembered.baseline <= input.value) {
        return payload;
      }
      wire := payload["input" := Arr(input.value[|remembered.baseline|..])];
      wire := wire["previous_response_id" := Str(remembered.responseId)];
    }

    method RecordContext(payload: Fields, response: Value)
      modifies this`context
      ensures context == Recorded(payload, response)
    {
      var id, input := ResponseId(response), InputItems(payload);
      if id.None? || input.None? {
        context := None;
        return;
      }
      var baseline := input.value;
      var output := AsArr(Get(response, "output"));
      if output.Some? {
        baseline := baseline + CanonicalOutput(output.value);
      } else {
        assert baseline + CanonicalOutput([]) == baseline;
      }
      context := Some(Remembered(WithoutInput(payload), baseline, id.value));
    }

    /** `send_response_create_with_transport_reconnect`: one reconnect after a transport error, same bytes. */
    method SendWithReconnect(service: Service, r: SendRequest, initial: bool, try: Try) returns (sent: Sent)
      modifies this, service
      ensures (Seen(service), sent)
           == Attempts(old(Seen(service)), r, WirePayload(old(context), BuildPayload(r)), initial, [try.first, try.second])
    {
      var payload := BuildPayload(r);
      var wire := IncrementalPayload(payload);
      var connected, retried := initial, false;
      while true
        invariant !retried ==> connected == initial && Seen(service) == old(Seen(service))
        invariant Attempts(Seen(service), r, wire, connected, if retried then [try.second] else [try.first, try.second])
               == Attempts(old(Seen(service)), r, wire, initial, [try.first, try.second])
        decreases !retried
      {
        var now := if retried then try.second else try.first;
        if !connected && now.connect.Some? {
          return Err(now.connect.value);
        }
        var answer := service.Exchange(r, wire, now.wanted);
        if answer.Completed? {
          socket := Some(r.settings.windowId);
        }
        if !answer.Completed? && IsTransport(answer.error) && !retried {
          retried := true;
          ClearSocket();
          connected := false;
          assert [try.first, try.second][1..] == [try.second];
          continue;
        }
        if answer.Completed? {
          RecordContext(payload, answer.response);
          return Ok(answer.response);
        }
        return Err(answer.error);
      }
    }

    method SendPayload(service: Service, r: SendRequest, try: Try) returns (sent: Sent)
      modifies this, service
      ensures (Seen(service), sent) == SendWithAuth(old(Seen(service)), r, try)
    {
      var reusable := socket == Some(r.settings.windowId);
      socket := None;
      sent := SendWithReconnect(service, r, reusable, try);
      if sent.Ok? && try.conversion.Some? {
        sent := Err(try.conversion.value);
      }
    }

    /** `send_once`. It refines the specification and keeps the provider in step with the service. */
    method Send(service: Service, r: SendRequest, env: Environment) returns (sent: Sent)
      modifies this, service
      ensures (Seen(service), sent) == SendOnce(old(Seen(service)), r, env)
      ensures old(Faithful(Seen(service))) ==> Faithful(Seen(service))
    {
      SendOnceKeepsIf(Seen(service), r, env);
      if r.reset {
        ClearIncrementalContext();
      }
      if env.auth.Some? {
        return Err(env.auth.value);
      }
      sent := SendPayload(service, r, env.first);
      if sent.Err? && IsUnauthorized(sent.error) {
        ClearSocket();
        if env.refresh.Some? {
          return Err(env.refresh.value);
        }
        sent := SendPayload(service, r, env.second);
      } else if sent.Err? && IsPreviousNotFound(sent.error) {
        ClearIncrementalContext();
        sent := SendPayload(service, r, env.second);
      }
    }

    method BeforeRetry(error: ProviderError)
      modifies this`socket
      ensures socket == if error.WebSocket? then None else old(socket)
    {
      if error.WebSocket? {
        ClearSocket();
      }
    }
  }

  lemma {:induction false} SendOnceKeepsIf(w: World, r: SendRequest, env: Environment)
    ensures Faithful(w) ==> Faithful(SendOnce(w, r, env).0)
  {
    if Faithful(w) {
      SendOnceKeeps(w, r, env);
    }
  }
}
