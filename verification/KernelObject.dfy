/** The kernel as the object that owns the registry and updates it in place. */
module KernelObject {
  import opened Wrappers
  import opened Text
  import opened Kernel
  import opened KernelRuns

  /** What survives a failure: inbox contents do not. */
  function Durable(k: State): State {
    k.(services := map a | a in k.services :: k.services[a].(inbox := []))
  }

  class ConversationKernel {
    var services: map<Addr, Service>
    var metadata: Metadata
    var config: Config
    var nextBackground: nat
    var nextSubagent: nat
    var manifest: Option<Manifest>

    constructor (metadata: Metadata, config: Config)
      ensures View() == State(map[], metadata, config, 1, 1, None)
    {
      this.services, this.metadata, this.config := map[], metadata, config;
      nextBackground, nextSubagent, manifest := 1, 1, None;
    }

    function View(): State
      reads this
    {
      State(services, metadata, config, nextBackground, nextSubagent, manifest)
    }

    method PersistManifest()
      modifies this`manifest
      ensures View() == Persist(old(View()))
    {
      manifest := Some(Manifest(Kinds(services), nextBackground, nextSubagent));
    }

    method MountService(a: Addr, kind: Kind) returns (ok: bool)
      modifies this
      ensures ok <==> Mount(old(View()), a, kind).Some?
      ensures View() == if ok then Mount(old(View()), a, kind).value else old(View())
    {
      hide StorageComponent, DefaultNickname;
      if a == KERNEL || a in services {
        return false;
      }
      if kind.AgentSession? && StorageComponent(a) !in metadata.sessionNicknames {
        metadata := metadata.(sessionNicknames := metadata.sessionNicknames[StorageComponent(a) := DefaultNickname(a)]);
      }
      services := services[a := Service(kind, [], true)];
      PersistManifest();
      ok := true;
    }

    method SendTo(call: Call) returns (ok: bool)
      modifies this`services
      ensures ok <==> Send(old(View()), call).Done?
      ensures View() == if ok then Send(old(View()), call).state else old(View())
    {
      if call.target !in services || !services[call.target].open {
        return false;
      }
      var service := services[call.target];
      services := services[call.target := service.(inbox := service.inbox + [call])];
      ok := true;
    }

    method CreateAgentSession(source: Addr, kind: SessionKind, id: Option<string>, requested: Option<Binding>)
      returns (response: KernelResponse)
      modifies this
      ensures Answered(View(), response) == HandleCreate(old(View()), source, kind, id, requested)
    {
      hide Resolve, Mount, Print;
      var binding := Resolve(View(), source, kind, requested);
      if binding.None? {
        return Error("permission_denied");
      }
      var a := KERNEL;
      match kind {
        case Foreground =>
          a := Session(kind, id.Or(ServiceId(source, "channel")).UnwrapOr("main"));
        case Background =>
          if id.Some? {
            a := Session(kind, id.value);
          } else {
            a := Session(kind, "bg_" + Print(nextBackground));
            nextBackground := nextBackground + 1;
          }
        case Subagent =>
          if id.Some? {
            a := Session(kind, id.value);
          } else {
            a := Session(kind, "sa_" + Print(nextSubagent));
            nextSubagent := nextSubagent + 1;
          }
      }
      var ok := MountService(a, AgentSession(kind, binding.value));
      response := if ok then SessionCreated(a) else Error("permission_denied");
    }

    method StopMounted(a: Addr, reason: Option<string>) returns (response: Option<KernelResponse>)
      modifies this
      ensures match HandleStop(old(View()), a, reason)
              case Answered(after, answer) => response == Some(answer) && View() == after
              case Broke(at) => response == None && View() == at
    {
      if a !in services {
        return Some(Error("service_not_found"));
      }
      if ServiceId(a, "agent").Some? && CRON in services {
        var told := SendTo(DisableCall(a, reason.UnwrapOr("kernel stop request")));
        if !told {
          return None;
        }
      }
      services := services - {a};
      PersistManifest();
      response := Some(ServiceStopped(a));
    }

    /** Tells every service that takes the configuration, in whatever order the registry yields them. */
    method BroadcastConfig() returns (ok: bool, told: seq<Addr>, ghost order: seq<Addr>)
      modifies this`services
      ensures IsListing(order, ConfigTargets(old(View())))
      ensures ok <==> Broadcast(old(View()), order).Done?
      ensures ok ==> View() == Broadcast(old(View()), order).state && told == order
      ensures Durable(View()) == Durable(old(View()))
    {
      hide StorageComponent, TakesConfig;
      told, order := [], [];
      var left := ConfigTargets(View());
      ghost var targets := left;
      while left != {}
        invariant left <= targets && IsListing(order, targets - left) && told == order
        invariant Broadcast(old(View()), order) == Done(View())
        invariant Kinds(services) == Kinds(old(services)) && View() == old(View()).(services := services)
        invariant Durable(View()) == Durable(old(View()))
        decreases left
      {
        var a :| a in left;
        assert a in Kinds(old(services)).Keys;
        assert (order + [a])[..|order|] == order;
        ghost var before := View();
        ok := SendTo(ConfigCall(View(), a));
        if !ok {
          ghost var rest := SomeListing(left - {a});
          assert !Broadcast(old(View()), order + [a]).Done?;
          BroadcastStops(old(View()), order + [a], rest);
          ListingsJoin(order, targets - left, [a], {a});
          ListingsJoin(order + [a], targets - left + {a}, rest, left - {a});
          assert targets - left + {a} + (left - {a}) == targets;
          order := order + [a] + rest;
          return;
        }
        SendDurable(before, ConfigCall(before, a));
        told, order := told + [a], order + [a];
        left := left - {a};
      }
      ok := true;
    }

    method HandleKernelCall(call: Call) returns (response: Option<KernelResponse>, ghost order: seq<Addr>)
      modifies this
      ensures IsListing(order, ConfigTargets(old(View())))
      ensures match Handle(old(View()), call, order)
              case Answered(after, answer) => response == Some(answer) && View() == after
              case Broke(at) => response == None && Durable(View()) == Durable(at)
    {
      hide Resolve, Patched, PatchedMetadata, HandleCreate, HandleStop, Mount, Send;
      order := SomeListing(ConfigTargets(View()));
      if !call.payload.Request? {
        return Some(Error("bad_kernel_request")), order;
      }
      match call.payload.request {
        case CreateSession(kind, id, binding) =>
          var answer := CreateAgentSession(call.source, kind, id, binding);
          response := Some(answer);
        case StopService(a, reason) =>
          response := StopMounted(a, reason);
        case QueryConfig => response := Some(CurrentConfig(config));
        case UpdateConfig(patch) =>
          config := Patched(config, patch);
          var ok, told, listing := BroadcastConfig();
          order := listing;
          response := if ok then Some(ConfigUpdated(config, told)) else None;
        case QueryMetadata => response := Some(CurrentMetadata(metadata));
        case UpdateMetadata(patch) =>
          metadata := PatchedMetadata(metadata, patch);
          response := Some(MetadataUpdated(metadata));
        case ListServices => response := Some(Services(services.Keys));
      }
    }

    /**
     `dispatch_call`. The source's recursion ends because an answer is never addressed to the kernel; a call from the
     kernel to itself is the one it would not end for.
     */
    method DispatchCall(call: Call) returns (ok: bool, ghost order: seq<Addr>)
      requires call.target != KERNEL || call.source != KERNEL
      modifies this
      ensures IsListing(order, ConfigTargets(old(View())))
      ensures match Dispatch(old(View()), call, order, 1)
              case Done(after) => ok && View() == after
              case Failed(at) => !ok && Durable(View()) == Durable(at)
              case OutOfFuel => false
      decreases call.target == KERNEL
    {
      hide Handle, Send;
      if call.target == KERNEL {
        var response;
        response, order := HandleKernelCall(call);
        if response.None? {
          return false, order;
        }
        ghost var inner;
        ok, inner := DispatchCall(Reply(call, response.value));
        return ok, order;
      }
      order := SomeListing(ConfigTargets(View()));
      if call.target in services {
        ok := SendTo(call);
      } else if call.requestId.Some? && call.source != KERNEL && call.source in services {
        ok := SendTo(Reply(call, Error("service_not_found")));
      } else {
        ok := false;
      }
      SendOutcomes(old(View()), call);
      SendOutcomes(old(View()), Reply(call, Error("service_not_found")));
    }

    /** A service reported that it has stopped. */
    method ServiceExited(a: Addr)
      modifies this
      ensures View() == if a in old(services) then Persist(old(View()).(services := old(services) - {a})) else old(View())
    {
      if a in services {
        services := services - {a};
        PersistManifest();
      }
    }

    /** `stop_all`: the registry empties, the manifest stays. */
    method StopEverything()
      modifies this`services
      ensures View() == StopAll(old(View()))
    {
      while services != map[]
        invariant View() == old(View()).(services := services)
        decreases services.Keys
      {
        assert services.Keys != {};
        var a :| a in services;
        services := services - {a};
      }
    }
  }

  lemma {:induction false} SomeListing(targets: set<Addr>) returns (order: seq<Addr>)
    ensures IsListing(order, targets)
  {
    if targets == {} {
      order := [];
    } else {
      var a :| a in targets;
      var rest := SomeListing(targets - {a});
      order := rest + [a];
    }
  }

  lemma {:induction false} ListingsJoin(a: seq<Addr>, s: set<Addr>, b: seq<Addr>, t: set<Addr>)
    requires IsListing(a, s) && IsListing(b, t) && s !! t
    ensures IsListing(a + b, s + t)
  {
    var all := a + b;
    forall i, j | 0 <= i < j < |all|
      ensures all[i] != all[j]
    {
      if i < |a| <= j {
        assert all[i] in a && all[j] == b[j - |a|] && b[j - |a|] in b;
      }
    }
  }

  lemma {:induction false} BroadcastStops(k: State, first: seq<Addr>, rest: seq<Addr>)
    requires !Broadcast(k, first).Done?
    ensures !Broadcast(k, first + rest).Done?
    decreases |rest|
  {
    if rest == [] {
      assert first + rest == first;
    } else {
      BroadcastStops(k, first, rest[..|rest| - 1]);
      assert (first + rest)[..|first + rest| - 1] == first + rest[..|rest| - 1];
    }
  }

  lemma {:induction false} SendDurable(k: State, call: Call)
    requires Send(k, call).Done?
    ensures Durable(Send(k, call).state) == Durable(k)
  {
  }

  lemma {:induction false} SendOutcomes(k: State, call: Call)
    ensures !Send(k, call).OutOfFuel? && (Send(k, call).Failed? ==> Send(k, call).at == k)
  {
  }
}
