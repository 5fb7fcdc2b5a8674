/**
 The conversation kernel: a registry of services with inboxes, a router of calls, and the requests the kernel
 answers itself. A call that reaches the kernel changes the registry first and is then answered.
 */
module Kernel {
  import opened Wrappers
  import opened Text

  // ----- Addresses and services -----

  datatype AddrScope = Local | InConversation(conversation: string)

  datatype Addr = Addr(scope: AddrScope, path: seq<string>)

  function LocalPath(path: seq<string>): Addr {
    Addr(Local, path)
  }

  const KERNEL: Addr := LocalPath(["kernel"])
  const CHANNEL: Addr := LocalPath(["channel", "main"])
  const FOREGROUND: Addr := LocalPath(["agent", "foreground", "main"])
  const CRON: Addr := LocalPath(["cron"])

  function Session(kind: SessionKind, id: string): Addr {
    LocalPath(["agent", match kind case Foreground => "foreground" case Background => "background" case Subagent => "subagent", id])
  }

  /** `local_service_id`: the second segment of a local address that starts with `name`. */
  function ServiceId(a: Addr, name: string): Option<string> {
    if a.scope == Local && |a.path| >= 2 && a.path[0] == name then Some(a.path[1]) else None
  }

  function Join(parts: seq<string>, separator: string): string {
    if parts == [] then "" else if |parts| == 1 then parts[0] else parts[0] + separator + Join(parts[1..], separator)
  }

  function StorageComponent(a: Addr): string {
    (if a.scope == Local then "local" else "conversation_" + a.scope.conversation) + "__" + Join(a.path, "__")
  }

  function Display(a: Addr): string {
    (if a.scope == Local then "local:" else "conversation/" + a.scope.conversation + ":") + Join(a.path, "/")
  }

  datatype SessionKind = Foreground | Background | Subagent

  datatype Binding = Binding(eventSink: Addr, parent: Option<Addr>)

  datatype Kind =
    | Channel | AgentSession(kind: SessionKind, binding: Binding) | Cron | Memory | Skill | ToolBinary
    | Workspace | Terminal | Control | Noop(name: string)

  /** A service as the kernel sees it: its kind, its inbox, and whether anyone still reads that inbox. */
  datatype Service = Service(kind: Kind, inbox: seq<Call>, open: bool)

  // ----- Calls -----

  datatype Call = Call(source: Addr, target: Addr, requestId: Option<string>, responseId: Option<string>, payload: Payload)

  datatype Payload =
    | Request(request: KernelRequest)
    | Response(response: KernelResponse)
    | LaunchConfig(session: string, launch: Config)
    | NewConfig(config: Config)
    | DisableTasks(owner: Addr, reason: string)
    | Other(text: string)

  datatype KernelRequest =
    | CreateSession(kind: SessionKind, id: Option<string>, binding: Option<Binding>)
    | StopService(addr: Addr, reason: Option<string>)
    | QueryConfig
    | UpdateConfig(patch: ConfigPatch)
    | QueryMetadata
    | UpdateMetadata(metadataPatch: MetadataPatch)
    | ListServices

  datatype KernelResponse =
    | SessionCreated(created: Addr)
    | ServiceStopped(stopped: Addr)
    | CurrentConfig(current: Config)
    | ConfigUpdated(updated: Config, updatedServices: seq<Addr>)
    | CurrentMetadata(metadata: Metadata)
    | MetadataUpdated(newMetadata: Metadata)
    | Services(addrs: set<Addr>)
    | Error(code: string)

  // ----- Configuration and metadata -----

  datatype Config = Config(
    agentServerPath: Option<string>,
    sessionProfile: Option<string>,
    models: map<string, string>,
    sessionDefaults: string,
    memoryEnabled: bool,
    toolRemoteMode: string,
    sandbox: Option<string>,
    reasoningEffort: Option<string>)

  datatype ConfigPatch = ConfigPatch(
    agentServerPath: Option<Option<string>>,
    sessionProfile: Option<Option<string>>,
    models: Option<map<string, string>>,
    sessionDefaults: Option<string>,
    memoryEnabled: Option<bool>,
    toolRemoteMode: Option<string>,
    sandbox: Option<Option<string>>,
    reasoningEffort: Option<Option<string>>)

  function Patched(c: Config, p: ConfigPatch): Config {
    Config(p.agentServerPath.UnwrapOr(c.agentServerPath), p.sessionProfile.UnwrapOr(c.sessionProfile),
           p.models.UnwrapOr(c.models), p.sessionDefaults.UnwrapOr(c.sessionDefaults),
           p.memoryEnabled.UnwrapOr(c.memoryEnabled), p.toolRemoteMode.UnwrapOr(c.toolRemoteMode),
           p.sandbox.UnwrapOr(c.sandbox), p.reasoningEffort.UnwrapOr(c.reasoningEffort))
  }

  datatype Metadata = Metadata(
    conversationId: string,
    nickname: string,
    modelSelectionPending: bool,
    sessionNicknames: map<string, string>)

  datatype MetadataPatch = MetadataPatch(
    nickname: Option<string>,
    modelSelectionPending: Option<bool>,
    sessionNicknames: map<string, Option<string>>)

  function KeptNicknames(names: map<string, string>, patch: map<string, Option<string>>): map<string, string> {
    map key | key in names.Keys + patch.Keys
              && (key !in patch || (patch[key].Some? && Trim(patch[key].value) != "")) ::
      if key in patch then Trim(patch[key].value) else names[key]
  }

  function PatchedMetadata(m: Metadata, p: MetadataPatch): Metadata {
    Metadata(m.conversationId,
             match p.nickname
             case None => m.nickname
             case Some(name) => if Trim(name) == "" then m.conversationId else Trim(name),
             p.modelSelectionPending.UnwrapOr(m.modelSelectionPending),
             KeptNicknames(m.sessionNicknames, p.sessionNicknames))
  }

  // ----- The kernel -----

  datatype Manifest = Manifest(kinds: map<Addr, Kind>, nextBackground: nat, nextSubagent: nat)

  /** `manifest` is the file on disk, if it was written. */
  datatype State = State(
    services: map<Addr, Service>,
    metadata: Metadata,
    config: Config,
    nextBackground: nat,
    nextSubagent: nat,
    manifest: Option<Manifest>)

  function Kinds(services: map<Addr, Service>): (r: map<Addr, Kind>)
    ensures r.Keys == services.Keys
    ensures forall a | a in services :: r[a] == services[a].kind
  {
    map a | a in services :: services[a].kind
  }

  function Persist(k: State): State {
    k.(manifest := Some(Manifest(Kinds(k.services), k.nextBackground, k.nextSubagent)))
  }

  function DefaultNickname(a: Addr): string {
    if |a.path| == 3 && a.path[0] == "agent" then a.path[2] else Display(a)
  }

  function Named(m: Metadata, a: Addr, kind: Kind): Metadata {
    if !kind.AgentSession? || StorageComponent(a) in m.sessionNicknames then m
    else m.(sessionNicknames := m.sessionNicknames[StorageComponent(a) := DefaultNickname(a)])
  }

  /** `mount_service`. */
  function Mount(k: State, a: Addr, kind: Kind): Option<State> {
    if a == KERNEL || a in k.services then None
    else Some(Persist(k.(services := k.services[a := Service(kind, [], true)], metadata := Named(k.metadata, a, kind))))
  }

  /** How dispatching a call ends. After a failure the kernel stops all services. */
  datatype Outcome = Done(state: State) | Failed(at: State) | OutOfFuel

  function Send(k: State, call: Call): Outcome {
    if call.target !in k.services then Failed(k)
    else
      var service := k.services[call.target];
      if !service.open then Failed(k)
      else Done(k.(services := k.services[call.target := service.(inbox := service.inbox + [call])]))
  }

  function Reply(call: Call, response: KernelResponse): Call {
    Call(KERNEL, call.source, None, call.requestId, Response(response))
  }

  /** A call to a service; a missing target is reported to a mounted source that asked for an answer. */
  function Deliver(k: State, call: Call): Outcome {
    if call.target in k.services then Send(k, call)
    else if call.requestId.Some? && call.source != KERNEL && call.source in k.services then
      Send(k, Reply(call, Error("service_not_found")))
    else Failed(k)
  }

  // ----- Requests to the kernel -----

  function SessionBinding(k: State, a: Addr): Option<Binding> {
    if a in k.services && k.services[a].kind.AgentSession? then Some(k.services[a].kind.binding) else None
  }

  /** `resolve_agent_session_binding`. */
  function Resolve(k: State, source: Addr, kind: SessionKind, requested: Option<Binding>): Option<Binding> {
    match kind
    case Foreground =>
      var binding := requested.UnwrapOr(Binding(source, None));
      if ServiceId(source, "channel").None? || binding.eventSink != source || binding.parent.Some? then None
      else Some(binding)
    case _ =>
      if kind.Background? && source == CRON then requested
      else
        var own := SessionBinding(k, source);
        if own.None? then None
        else
          var binding := requested.UnwrapOr(Binding(own.value.eventSink, Some(source)));
          if binding.parent != Some(source) then None else Some(binding)
  }

  /** The address of a new session, and the kernel with its counter moved when the number was made up. */
  function NewAddress(k: State, source: Addr, kind: SessionKind, id: Option<string>): (State, Addr) {
    match kind
    case Foreground => (k, Session(kind, id.Or(ServiceId(source, "channel")).UnwrapOr("main")))
    case Background =>
      if id.Some? then (k, Session(kind, id.value))
      else (k.(nextBackground := k.nextBackground + 1), Session(kind, "bg_" + Print(k.nextBackground)))
    case Subagent =>
      if id.Some? then (k, Session(kind, id.value))
      else (k.(nextSubagent := k.nextSubagent + 1), Session(kind, "sa_" + Print(k.nextSubagent)))
  }

  /** A request handled: the new state and the answer, or a failure inside it. */
  datatype Handled = Answered(state: State, response: KernelResponse) | Broke(at: State)

  function HandleCreate(k: State, source: Addr, kind: SessionKind, id: Option<string>,
                        requested: Option<Binding>): Handled {
    var binding := Resolve(k, source, kind, requested);
    if binding.None? then Answered(k, Error("permission_denied"))
    else
      var (counted, a) := NewAddress(k, source, kind, id);
      match Mount(counted, a, AgentSession(kind, binding.value))
      case None => Answered(counted, Error("permission_denied"))
      case Some(mounted) => Answered(mounted, SessionCreated(a))
  }

  function DisableCall(a: Addr, reason: string): Call {
    Call(KERNEL, CRON, None, None, DisableTasks(a, reason))
  }

  function HandleStop(k: State, a: Addr, reason: Option<string>): Handled {
    if a !in k.services then Answered(k, Error("service_not_found"))
    else
      var told := if ServiceId(a, "agent").Some? && CRON in k.services
                  then Send(k, DisableCall(a, reason.UnwrapOr("kernel stop request"))) else Done(k);
      if !told.Done? then Broke(k)
      else Answered(Persist(told.state.(services := told.state.services - {a})), ServiceStopped(a))
  }

  predicate TakesConfig(kind: Kind) {
    kind.AgentSession? || kind.Workspace? || kind.Terminal?
  }

  function ConfigTargets(k: State): (r: set<Addr>)
    ensures forall a :: a in r <==> a in k.services && TakesConfig(k.services[a].kind)
  {
    set a | a in k.services && TakesConfig(k.services[a].kind)
  }

  /** The update a service of this kind receives. */
  function ConfigCall(k: State, a: Addr): Call
    requires a in k.services
  {
    Call(KERNEL, a, None, None,
         if k.services[a].kind.AgentSession? then LaunchConfig(StorageComponent(a), k.config) else NewConfig(k.config))
  }

  /** `order` is a listing of the targets: the iteration order of a hash map is not specified. */
  ghost predicate IsListing(order: seq<Addr>, targets: set<Addr>) {
    && (forall i, j | 0 <= i < j < |order| :: order[i] != order[j])
    && (forall a :: a in order <==> a in targets)
  }

  function Broadcast(k: State, order: seq<Addr>): Outcome
    decreases |order|
  {
    if order == [] then Done(k)
    else
      var before := Broadcast(k, order[..|order| - 1]);
      var a := order[|order| - 1];
      if !before.Done? then before
      else if a !in before.state.services then Failed(k)
      else Send(before.state, ConfigCall(before.state, a))
  }

  function Handle(k: State, call: Call, order: seq<Addr>): Handled {
    if !call.payload.Request? then Answered(k, Error("bad_kernel_request"))
    else
      match call.payload.request
      case CreateSession(kind, id, binding) => HandleCreate(k, call.source, kind, id, binding)
      case StopService(a, reason) => HandleStop(k, a, reason)
      case QueryConfig => Answered(k, CurrentConfig(k.config))
      case UpdateConfig(patch) =>
        var patched := k.(config := Patched(k.config, patch));
        (match Broadcast(patched, order)
         case Done(told) => Answered(told, ConfigUpdated(patched.config, order))
         case _ => Broke(patched))
      case QueryMetadata => Answered(k, CurrentMetadata(k.metadata))
      case UpdateMetadata(patch) =>
        var patched := k.(metadata := PatchedMetadata(k.metadata, patch));
        Answered(patched, MetadataUpdated(patched.metadata))
      case ListServices => Answered(k, Services(k.services.Keys))
  }

  /** `dispatch_call`, with `fuel` bounding how often the kernel may answer itself. */
  function Dispatch(k: State, call: Call, order: seq<Addr>, fuel: nat): Outcome
    decreases fuel
  {
    if call.target != KERNEL then Deliver(k, call)
    else if fuel == 0 then OutOfFuel
    else
      match Handle(k, call, order)
      case Broke(at) => Failed(at)
      case Answered(after, response) => Dispatch(after, Reply(call, response), order, fuel - 1)
  }

  // ----- Termination -----

  /** A call that does not go from the kernel to itself needs one answer, so more fuel changes nothing. */
  lemma {:induction false} DispatchTerminates(k: State, call: Call, order: seq<Addr>, fuel: nat)
    requires call.target != KERNEL || call.source != KERNEL
    requires fuel > 0
    ensures Dispatch(k, call, order, fuel) == Dispatch(k, call, order, 1)
    ensures !Dispatch(k, call, order, fuel).OutOfFuel?
  {
    hide Handle;
  }

  /**
   A call from the kernel to itself never ends: its answer is again such a call and cannot be understood, so no
   amount of fuel is enough unless handling the first call broke.
   */
  lemma {:induction false} KernelToItself(k: State, call: Call, order: seq<Addr>, fuel: nat)
    requires call.target == KERNEL && call.source == KERNEL
    ensures Handle(k, call, order).Answered? ==> Dispatch(k, call, order, fuel).OutOfFuel?
    decreases fuel
  {
    hide Handle;
    if fuel > 0 && Handle(k, call, order).Answered? {
      var handled := Handle(k, call, order);
      var reply := Reply(call, handled.response);
      NotUnderstood(handled.state, reply, order);
      KernelToItself(handled.state, reply, order, fuel - 1);
    }
  }

  lemma {:induction false} NotUnderstood(k: State, call: Call, order: seq<Addr>)
    requires !call.payload.Request?
    ensures Handle(k, call, order) == Answered(k, Error("bad_kernel_request"))
  {
  }

  // ----- One answer per request -----

  predicate AllOpen(k: State) {
    forall a | a in k.services :: k.services[a].open
  }

  /** The answers of the kernel among the calls of an inbox. */
  function Answers(inbox: seq<Call>): seq<Call>
    decreases |inbox|
  {
    if inbox == [] then []
    else
      var last := inbox[|inbox| - 1];
      Answers(inbox[..|inbox| - 1]) + if last.source == KERNEL && last.payload.Response? then [last] else []
  }

  function Inbox(k: State, a: Addr): seq<Call> {
    if a in k.services then k.services[a].inbox else []
  }

  lemma {:induction false} AnswersAppend(inbox: seq<Call>, call: Call)
    ensures Answers(inbox + [call])
         == Answers(inbox) + if call.source == KERNEL && call.payload.Response? then [call] else []
  {
    assert (inbox + [call])[..|inbox|] == inbox;
  }

  predicate StopsItself(call: Call) {
    call.payload.Request? && call.payload.request.StopService? && call.payload.request.addr == call.source
  }

  /** Same answers everywhere: what a request may do before it is answered. */
  predicate SameAnswers(before: State, after: State) {
    forall a | a in after.services :: Answers(Inbox(after, a)) == Answers(Inbox(before, a))
  }

  lemma {:induction false} SendCommand(k: State, call: Call)
    requires Send(k, call).Done? && !call.payload.Response?
    ensures SameAnswers(k, Send(k, call).state)
    ensures Send(k, call).state.services.Keys == k.services.Keys && Kinds(Send(k, call).state.services) == Kinds(k.services)
    ensures AllOpen(k) ==> AllOpen(Send(k, call).state)
    ensures Send(k, call).state == k.(services := Send(k, call).state.services)
  {
    hide Answers;
    AnswersAppend(Inbox(k, call.target), call);
  }

  lemma {:induction false} BroadcastPrefix(k: State, order: seq<Addr>, n: nat)
    requires AllOpen(k) && IsListing(order, ConfigTargets(k)) && n <= |order|
    ensures var told := Broadcast(k, order[..n]);
            && told.Done? && SameAnswers(k, told.state) && AllOpen(told.state)
            && Kinds(told.state.services) == Kinds(k.services)
            && told.state == k.(services := told.state.services)
            && forall a | a in k.services ::
                 Inbox(told.state, a) == Inbox(k, a) + if a in order[..n] then [ConfigCall(k, a)] else []
    decreases n
  {
    hide Answers, StorageComponent;
    if n > 0 {
      BroadcastPrefix(k, order, n - 1);
      assert order[..n][..n - 1] == order[..n - 1] && order[..n][n - 1] == order[n - 1];
      var before, a := Broadcast(k, order[..n - 1]).state, order[n - 1];
      assert a in order && a in ConfigTargets(k) && a in Kinds(k.services).Keys && a in before.services;
      assert Kinds(before.services)[a] == Kinds(k.services)[a];
      assert ConfigCall(before, a) == ConfigCall(k, a);
      SendCommand(before, ConfigCall(k, a));
      assert a !in order[..n - 1];
      assert forall b :: b in order[..n] <==> b in order[..n - 1] || b == a;
    }
  }

  /** What handling a request leaves behind when every inbox is open. */
  lemma {:induction false} HandleOutcome(k: State, call: Call, order: seq<Addr>)
    requires AllOpen(k) && IsListing(order, ConfigTargets(k)) && call.source in k.services
    ensures var handled := Handle(k, call, order);
            && handled.Answered? && AllOpen(handled.state) && SameAnswers(k, handled.state)
            && (call.source in handled.state.services <==> !StopsItself(call))
  {
    hide Answers, StorageComponent, Print, Named, Resolve, Patched, PatchedMetadata;
    if call.payload.Request? {
      match call.payload.request {
        case StopService(a, reason) =>
          if a in k.services && ServiceId(a, "agent").Some? && CRON in k.services {
            SendCommand(k, DisableCall(a, reason.UnwrapOr("kernel stop request")));
          }
        case UpdateConfig(patch) =>
          var patched := k.(config := Patched(k.config, patch));
          BroadcastPrefix(patched, order, |order|);
          assert order[..|order|] == order;
        case CreateSession(kind, id, binding) =>
          assert Answers([]) == [] by {
            NoAnswers();
          }
        case _ =>
      }
    }
  }

  lemma {:induction false} NoAnswers()
    ensures Answers([]) == []
  {
  }

  /**
   Every request to the kernel from a mounted source gets exactly one answer, with the request's id, and nobody else
   gets one; the only exception is a service that asks to stop itself, whose answer has nowhere to go and brings the
   kernel down.
   */
  lemma {:induction false} OneAnswer(k: State, call: Call, order: seq<Addr>, fuel: nat)
    requires call.target == KERNEL && call.source != KERNEL && call.source in k.services
    requires AllOpen(k) && IsListing(order, ConfigTargets(k)) && fuel > 0
    ensures Dispatch(k, call, order, fuel).Done? <==> !StopsItself(call)
    ensures !StopsItself(call) ==>
              var after := Dispatch(k, call, order, fuel).state;
              && Answers(Inbox(after, call.source))
                 == Answers(Inbox(k, call.source)) + [Reply(call, Handle(k, call, order).response)]
              && forall a | a in after.services && a != call.source :: Answers(Inbox(after, a)) == Answers(Inbox(k, a))
  {
    hide Handle, Answers;
    HandleOutcome(k, call, order);
    var handled := Handle(k, call, order);
    var reply := Reply(call, handled.response);
    if StopsItself(call) {
      assert Deliver(handled.state, reply) == Failed(handled.state);
    } else {
      AnswersAppend(Inbox(handled.state, call.source), reply);
      assert Dispatch(handled.state, reply, order, fuel - 1) == Send(handled.state, reply);
    }
  }

  /**
   A call to a service that is not mounted: a mounted source that gave a request id gets exactly one
   service_not_found with that id and nothing else changes; in every other case dispatching fails.
   */
  lemma {:induction false} MissingTarget(k: State, call: Call, order: seq<Addr>, fuel: nat)
    requires call.target != KERNEL && call.target !in k.services && KERNEL !in k.services && AllOpen(k)
    ensures var outcome := Dispatch(k, call, order, fuel);
            && (outcome.Done? <==> call.requestId.Some? && call.source in k.services)
            && (outcome.Done? ==>
                  && outcome.state == k.(services := outcome.state.services)
                  && outcome.state.services.Keys == k.services.Keys
                  && forall a | a in k.services ::
                       outcome.state.services[a] ==
                       if a == call.source then
                         k.services[a].(inbox := k.services[a].inbox + [Reply(call, Error("service_not_found"))])
                       else k.services[a])
  {
  }

  lemma {:induction false} TargetsListed(k: State, order: seq<Addr>, config: Config)
    requires IsListing(order, ConfigTargets(k))
    ensures IsListing(order, ConfigTargets(k.(config := config)))
    ensures forall a | a in k.services :: a in order <==> TakesConfig(k.services[a].kind)
  {
  }

  /**
   A configuration update reaches every session, workspace and terminal exactly once with the new configuration,
   before the requester is answered; the answer lists exactly those services.
   */
  lemma {:induction false} ConfigReachesAll(k: State, call: Call, patch: ConfigPatch, order: seq<Addr>, fuel: nat)
    requires call.target == KERNEL && call.source != KERNEL && call.source in k.services
    requires call.payload == Request(UpdateConfig(patch))
    requires AllOpen(k) && IsListing(order, ConfigTargets(k)) && fuel > 0
    ensures var outcome, config := Dispatch(k, call, order, fuel), Patched(k.config, patch);
            && outcome.Done? && outcome.state.config == config && Kinds(outcome.state.services) == Kinds(k.services)
            && forall a | a in k.services ::
                 Inbox(outcome.state, a)
                 == Inbox(k, a)
                    + (if TakesConfig(k.services[a].kind) then [ConfigCall(k.(config := config), a)] else [])
                    + (if a == call.source then [Reply(call, ConfigUpdated(config, order))] else [])
  {
    hide Answers, StorageComponent, Patched, Broadcast, IsListing, ConfigTargets;
    var patched := k.(config := Patched(k.config, patch));
    TargetsListed(k, order, patched.config);
    BroadcastPrefix(patched, order, |order|);
    assert order[..|order|] == order;
    var told := Broadcast(patched, order).state;
    assert told.services.Keys == Kinds(told.services).Keys == k.services.Keys;
    var reply := Reply(call, ConfigUpdated(patched.config, order));
    assert Dispatch(k, call, order, fuel) == Deliver(told, reply);
    var after := Send(told, reply).state;
    assert Kinds(after.services) == Kinds(told.services);
    forall a | a in k.services
      ensures Inbox(after, a) == Inbox(told, a) + (if a == call.source then [reply] else [])
    {
      assert a in told.services;
    }
  }

  // ----- Who may create which session -----

  /** The binding rules, in both directions. */
  lemma {:induction false} BindingRules(k: State, source: Addr, kind: SessionKind, requested: Option<Binding>,
                                        binding: Binding)
    ensures Resolve(k, source, kind, requested) == Some(binding) <==>
            match kind
            case Foreground =>
              && ServiceId(source, "channel").Some? && binding == Binding(source, None)
              && (requested.None? || requested == Some(binding))
            case _ =>
              if kind.Background? && source == CRON then requested == Some(binding)
              else
                && SessionBinding(k, source).Some? && binding.parent == Some(source)
                && (requested == Some(binding)
                    || (requested.None? && binding.eventSink == SessionBinding(k, source).value.eventSink))
  {
  }
}
