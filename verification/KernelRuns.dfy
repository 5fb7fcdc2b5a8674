/** Whole lives of a conversation: creating, stopping, shutting down and opening again, with the manifest on disk. */
module KernelRuns {
  import opened Wrappers
  import opened Text
  import opened Kernel

  /** `made` lists the session numbers handed out so far, per kind, in the order they were mounted. */
  datatype World = World(k: State, running: bool, madeBackground: seq<nat>, madeSubagent: seq<nat>)

  datatype Op =
    | Route(call: Call, order: seq<Addr>)
    | MountAt(addr: Addr, kind: Kind)
    | InboxCloses(closing: Addr)
    | Exited(stopped: Addr)
    | Fails
    | Shutdown
    | Reopen(config: Config, entries: seq<(Addr, Kind)>)

  /** All services are stopped and nothing is written. */
  function StopAll(k: State): State {
    k.(services := map[])
  }

  // ----- Opening -----

  const SESSION_KIND: Kind := AgentSession(Foreground, Binding(CHANNEL, None))

  const STANDARD: seq<(Addr, Kind)> := [
    (CHANNEL, Channel), (FOREGROUND, SESSION_KIND), (CRON, Cron), (LocalPath(["memory"]), Memory),
    (LocalPath(["skill"]), Skill), (LocalPath(["tool_binary"]), ToolBinary), (LocalPath(["workspace"]), Workspace),
    (LocalPath(["terminal"]), Terminal)]

  /** Mounts the listed services one by one; with `skip`, those already mounted are passed over. */
  function MountAll(k: State, list: seq<(Addr, Kind)>, skip: bool): Option<State>
    decreases |list|
  {
    if list == [] then Some(k)
    else
      match MountAll(k, list[..|list| - 1], skip)
      case None => None
      case Some(before) =>
        var (a, kind) := list[|list| - 1];
        if skip && a in before.services then Some(before) else Mount(before, a, kind)
  }

  /** The manifest's entries in some order; the file sorts them by display name. */
  ghost predicate Lists(list: seq<(Addr, Kind)>, kinds: map<Addr, Kind>) {
    && (forall i, j | 0 <= i < j < |list| :: list[i].0 != list[j].0)
    && (forall i | 0 <= i < |list| :: list[i].0 in kinds && kinds[list[i].0] == list[i].1)
    && (forall a | a in kinds :: exists i | 0 <= i < |list| :: list[i].0 == a)
  }

  function Max1(n: nat): nat {
    if n < 1 then 1 else n
  }

  /** What a new kernel starts from: the files, or the defaults where there is no file. */
  function Loaded(k: State, config: Config): State {
    match k.manifest
    case None => State(map[], k.metadata, config, 1, 1, None)
    case Some(m) => State(map[], k.metadata, config, Max1(m.nextBackground), Max1(m.nextSubagent), k.manifest)
  }

  function EntriesOf(k: State): map<Addr, Kind> {
    if k.manifest.Some? then k.manifest.value.kinds else map[]
  }

  /** `open_or_bootstrap`, given the manifest's entries in file order. */
  function Open(k: State, config: Config, entries: seq<(Addr, Kind)>): Option<State> {
    match MountAll(Loaded(k, config), entries, false)
    case None => None
    case Some(restored) => MountAll(restored, STANDARD, true)
  }

  // ----- Steps -----

  predicate NextBackgroundId(call: Call) {
    && call.payload.Request? && call.payload.request.CreateSession?
    && call.payload.request.kind.Background? && call.payload.request.id.None?
  }

  predicate NextSubagentId(call: Call) {
    && call.payload.Request? && call.payload.request.CreateSession?
    && call.payload.request.kind.Subagent? && call.payload.request.id.None?
  }

  /** Did handling the call mount a session whose number the kernel made up? */
  predicate MadeUp(k: State, call: Call, order: seq<Addr>) {
    call.target == KERNEL && Handle(k, call, order).Answered? && Handle(k, call, order).response.SessionCreated?
  }

  function Routed(w: World, call: Call, order: seq<Addr>): World {
    var background := if MadeUp(w.k, call, order) && NextBackgroundId(call)
                      then w.madeBackground + [w.k.nextBackground] else w.madeBackground;
    var subagent := if MadeUp(w.k, call, order) && NextSubagentId(call)
                    then w.madeSubagent + [w.k.nextSubagent] else w.madeSubagent;
    match Dispatch(w.k, call, order, 1)
    case Done(after) => World(after, true, background, subagent)
    case Failed(at) => World(StopAll(at), false, background, subagent)
    case OutOfFuel => w
  }

  /** One step. Steps that do not apply leave the world alone. */
  function Step(w: World, op: Op): World {
    match op
    case Route(call, order) =>
      if !w.running || (call.source == KERNEL && call.target == KERNEL) then w else Routed(w, call, order)
    case MountAt(a, kind) =>
      if !w.running || Mount(w.k, a, kind).None? then w else w.(k := Mount(w.k, a, kind).value)
    case InboxCloses(a) =>
      if !w.running || a !in w.k.services then w
      else w.(k := w.k.(services := w.k.services[a := w.k.services[a].(open := false)]))
    case Exited(a) =>
      if !w.running || a !in w.k.services then w
      else w.(k := Persist(w.k.(services := w.k.services - {a})))
    case Fails => if w.running then w.(k := StopAll(w.k), running := false) else w
    case Shutdown => if w.running then w.(k := StopAll(w.k), running := false) else w
    case Reopen(config, entries) =>
      if w.running || Open(w.k, config, entries).None? then w
      else w.(k := Open(w.k, config, entries).value, running := true)
  }

  // ----- Invariant -----

  predicate Increasing(s: seq<nat>) {
    forall i, j | 0 <= i < j < |s| :: s[i] < s[j]
  }

  predicate Below(s: seq<nat>, limit: nat) {
    forall i | 0 <= i < |s| :: s[i] < limit
  }

  function SavedBackground(k: State): nat {
    if k.manifest.Some? then Max1(k.manifest.value.nextBackground) else 1
  }

  function SavedSubagent(k: State): nat {
    if k.manifest.Some? then Max1(k.manifest.value.nextSubagent) else 1
  }

  /**
   While running the manifest lists exactly the mounted services; the kernel's own address is never mounted; numbers
   handed out are increasing and below the counters the manifest holds, which the running counters never fall behind.
   */
  predicate Inv(w: World) {
    && (w.running ==> w.k.manifest.Some? && w.k.manifest.value.kinds == Kinds(w.k.services))
    && (!w.running ==> w.k.services == map[])
    && KERNEL !in EntriesOf(w.k)
    && SavedBackground(w.k) <= Max1(w.k.nextBackground) && SavedSubagent(w.k) <= Max1(w.k.nextSubagent)
    && Increasing(w.madeBackground) && Below(w.madeBackground, SavedBackground(w.k))
    && Increasing(w.madeSubagent) && Below(w.madeSubagent, SavedSubagent(w.k))
    && w.k.nextBackground >= 1 && w.k.nextSubagent >= 1
  }

  /** Persisting leaves the counters and lists the services. */
  lemma {:induction false} MountManifest(k: State, a: Addr, kind: Kind)
    requires Mount(k, a, kind).Some?
    ensures var after := Mount(k, a, kind).value;
            && after.manifest == Some(Manifest(Kinds(after.services), k.nextBackground, k.nextSubagent))
            && after.nextBackground == k.nextBackground && after.nextSubagent == k.nextSubagent
            && Kinds(after.services) == Kinds(k.services)[a := kind]
            && a != KERNEL && a !in k.services
  {
    hide StorageComponent, Display;
  }

  /** How a handled request can change services, counters and manifest. */
  predicate Evolves(before: State, after: State) {
    && KERNEL !in after.services
    && after.nextBackground >= before.nextBackground && after.nextSubagent >= before.nextSubagent
    && ((after.manifest == before.manifest && Kinds(after.services) == Kinds(before.services))
        || after.manifest == Some(Manifest(Kinds(after.services), after.nextBackground, after.nextSubagent)))
  }

  lemma {:induction false} SendEvolves(k: State, call: Call)
    requires Send(k, call).Done?
    ensures var after := Send(k, call).state;
            Kinds(after.services) == Kinds(k.services) && after == k.(services := after.services)
  {
  }

  lemma {:induction false} BroadcastEvolves(k: State, order: seq<Addr>)
    requires Broadcast(k, order).Done?
    ensures var after := Broadcast(k, order).state;
            Kinds(after.services) == Kinds(k.services) && after == k.(services := after.services)
    decreases |order|
  {
    hide StorageComponent;
    if order != [] {
      BroadcastEvolves(k, order[..|order| - 1]);
      var before := Broadcast(k, order[..|order| - 1]).state;
      SendEvolves(before, ConfigCall(before, order[|order| - 1]));
    }
  }

  lemma {:induction false} CreateEvolves(k: State, source: Addr, kind: SessionKind, id: Option<string>,
                                         requested: Option<Binding>)
    requires KERNEL !in k.services
    ensures var handled := HandleCreate(k, source, kind, id, requested);
            && handled.Answered? && Evolves(k, handled.state)
            && (handled.response.SessionCreated? ==>
                  && handled.state.manifest
                     == Some(Manifest(Kinds(handled.state.services), handled.state.nextBackground, handled.state.nextSubagent))
                  && handled.state.nextBackground == k.nextBackground + (if kind.Background? && id.None? then 1 else 0)
                  && handled.state.nextSubagent == k.nextSubagent + (if kind.Subagent? && id.None? then 1 else 0))
  {
    hide Resolve, Print, StorageComponent, Display;
    var binding := Resolve(k, source, kind, requested);
    if binding.Some? {
      var (counted, a) := NewAddress(k, source, kind, id);
      if Mount(counted, a, AgentSession(kind, binding.value)).Some? {
        MountManifest(counted, a, AgentSession(kind, binding.value));
      }
    }
  }

  lemma {:induction false} StopEvolves(k: State, a: Addr, reason: Option<string>)
    requires KERNEL !in k.services
    ensures match HandleStop(k, a, reason)
            case Answered(after, _) => Evolves(k, after)
            case Broke(at) => at == k
  {
    if a in k.services && ServiceId(a, "agent").Some? && CRON in k.services {
      var call := DisableCall(a, reason.UnwrapOr("kernel stop request"));
      if Send(k, call).Done? {
        SendEvolves(k, call);
      }
    }
  }

  function HandledState(h: Handled): State {
    match h case Answered(after, _) => after case Broke(at) => at
  }

  lemma {:induction false} HandleEvolves(k: State, call: Call, order: seq<Addr>)
    requires KERNEL !in k.services
    ensures Evolves(k, HandledState(Handle(k, call, order)))
  {
    hide HandleCreate, HandleStop, Patched, PatchedMetadata;
    if call.payload.Request? {
      match call.payload.request {
        case CreateSession(kind, id, binding) => CreateEvolves(k, call.source, kind, id, binding);
        case StopService(a, reason) => StopEvolves(k, a, reason);
        case UpdateConfig(patch) =>
          var patched := k.(config := Patched(k.config, patch));
          if Broadcast(patched, order).Done? {
            BroadcastEvolves(patched, order);
          }
        case _ =>
      }
    }
  }

  function OutcomeState(o: Outcome, k: State): State {
    match o case Done(after) => after case Failed(at) => at case OutOfFuel => k
  }

  lemma {:induction false} DispatchEvolves(k: State, call: Call, order: seq<Addr>)
    requires KERNEL !in k.services && (call.target != KERNEL || call.source != KERNEL)
    ensures var outcome := Dispatch(k, call, order, 1);
            && !outcome.OutOfFuel? && Evolves(k, OutcomeState(outcome, k))
            && (call.target == KERNEL ==>
                  var after := HandledState(Handle(k, call, order));
                  OutcomeState(outcome, k).manifest == after.manifest
                  && OutcomeState(outcome, k).nextBackground == after.nextBackground
                  && OutcomeState(outcome, k).nextSubagent == after.nextSubagent)
  {
    hide Handle;
    if call.target == KERNEL {
      HandleEvolves(k, call, order);
      var handled := Handle(k, call, order);
      if handled.Answered? {
        DeliverEvolves(handled.state, Reply(call, handled.response));
      }
    } else {
      DeliverEvolves(k, call);
    }
  }

  lemma {:induction false} DeliverEvolves(k: State, call: Call)
    ensures var after := OutcomeState(Deliver(k, call), k);
            && !Deliver(k, call).OutOfFuel?
            && Kinds(after.services) == Kinds(k.services) && after == k.(services := after.services)
  {
    if call.target in k.services {
      if Send(k, call).Done? {
        SendEvolves(k, call);
      }
    } else if call.requestId.Some? && call.source != KERNEL && call.source in k.services {
      if Send(k, Reply(call, Error("service_not_found"))).Done? {
        SendEvolves(k, Reply(call, Error("service_not_found")));
      }
    }
  }

  lemma {:induction false} RouteKeeps(w: World, call: Call, order: seq<Addr>)
    requires Inv(w) && w.running && (call.target != KERNEL || call.source != KERNEL)
    ensures Inv(Routed(w, call, order))
  {
    hide Handle, Dispatch;
    assert KERNEL !in w.k.services by {
      assert w.k.services.Keys == Kinds(w.k.services).Keys;
    }
    DispatchEvolves(w.k, call, order);
    if MadeUp(w.k, call, order) {
      MadeUpSaved(w.k, call, order);
    }
    var after := OutcomeState(Dispatch(w.k, call, order, 1), w.k);
    assert after.services.Keys == Kinds(after.services).Keys;
  }

  lemma {:induction false} MadeUpSaved(k: State, call: Call, order: seq<Addr>)
    requires MadeUp(k, call, order) && KERNEL !in k.services
    ensures var after := HandledState(Handle(k, call, order));
            && after.manifest.Some? && after.manifest.value.nextBackground == after.nextBackground
            && after.manifest.value.nextSubagent == after.nextSubagent
            && after.nextBackground == k.nextBackground + (if NextBackgroundId(call) then 1 else 0)
            && after.nextSubagent == k.nextSubagent + (if NextSubagentId(call) then 1 else 0)
  {
    hide HandleCreate, HandleStop, Broadcast, Patched, PatchedMetadata;
    assert call.payload.Request?;
    match call.payload.request {
      case CreateSession(kind, id, binding) => CreateEvolves(k, call.source, kind, id, binding);
      case StopService(a, reason) => StopAnswers(k, a, reason);
      case _ =>
    }
  }

  lemma {:induction false} StopAnswers(k: State, a: Addr, reason: Option<string>)
    ensures HandleStop(k, a, reason).Answered? ==> !HandleStop(k, a, reason).response.SessionCreated?
  {
  }

  // ----- Opening restores -----

  ghost predicate Restored(k: State, list: seq<(Addr, Kind)>, n: nat)
    requires n <= |list|
  {
    var after := MountAll(k, list[..n], false);
    && after.Some? && after.value.nextBackground == k.nextBackground && after.value.nextSubagent == k.nextSubagent
    && (forall a :: a in after.value.services <==> exists i | 0 <= i < n :: list[i].0 == a)
    && (forall i | 0 <= i < n :: after.value.services[list[i].0].kind == list[i].1)
    && (n > 0 ==> after.value.manifest == Some(Manifest(Kinds(after.value.services), k.nextBackground, k.nextSubagent)))
    && (n == 0 ==> after.value == k)
  }

  lemma {:induction false} MountPrefix(k: State, list: seq<(Addr, Kind)>, kinds: map<Addr, Kind>, n: nat)
    requires Lists(list, kinds) && KERNEL !in kinds && k.services == map[] && n <= |list|
    ensures Restored(k, list, n)
    decreases n
  {
    hide Mount, MountAll, Kinds, Lists;
    assert MountAll(k, list[..0], false) == Some(k) by {
      MountNothing(k, list);
    }
    if n > 0 {
      MountPrefix(k, list, kinds, n - 1);
      ListedLater(list, kinds, n - 1);
      MountOneMore(k, list, n);
      var before := MountAll(k, list[..n - 1], false).value;
      var (a, kind) := list[n - 1];
      assert a !in before.services;
      assert a in kinds;
      MountWorks(before, a, kind);
      MountManifest(before, a, kind);
      var after := Mount(before, a, kind).value;
      assert forall b :: b in after.services <==> b in before.services || b == a;
    }
  }

  lemma {:induction false} ListedLater(list: seq<(Addr, Kind)>, kinds: map<Addr, Kind>, n: nat)
    requires Lists(list, kinds) && n < |list|
    ensures list[n].0 in kinds && forall i | 0 <= i < n :: list[i].0 != list[n].0
  {
  }

  lemma {:induction false} MountNothing(k: State, list: seq<(Addr, Kind)>)
    ensures MountAll(k, list[..0], false) == Some(k)
  {
  }

  lemma {:induction false} MountOneMore(k: State, list: seq<(Addr, Kind)>, n: nat)
    requires 0 < n <= |list| && MountAll(k, list[..n - 1], false).Some?
    ensures MountAll(k, list[..n], false) == Mount(MountAll(k, list[..n - 1], false).value, list[n - 1].0, list[n - 1].1)
  {
    hide Mount;
    assert list[..n][..n - 1] == list[..n - 1] && list[..n][n - 1] == list[n - 1];
  }

  lemma {:induction false} MountWorks(k: State, a: Addr, kind: Kind)
    requires a != KERNEL && a !in k.services
    ensures Mount(k, a, kind).Some?
    ensures Mount(k, a, kind).value.services == k.services[a := Service(kind, [], true)]
  {
    hide StorageComponent, Display;
  }

  /** Passing over what is mounted: everything stays, and each listed service is there afterwards. */
  ghost predicate Completed(k: State, list: seq<(Addr, Kind)>, n: nat)
    requires n <= |list|
  {
    var after := MountAll(k, list[..n], true);
    && after.Some? && after.value.nextBackground == k.nextBackground && after.value.nextSubagent == k.nextSubagent
    && (forall a | a in k.services :: a in after.value.services && after.value.services[a].kind == k.services[a].kind)
    && (forall i | 0 <= i < n :: list[i].0 in after.value.services)
    && (forall a | a in after.value.services && a !in k.services ::
          exists i | 0 <= i < n :: list[i].0 == a && after.value.services[a].kind == list[i].1)
    && (after.value == k || after.value.manifest
                            == Some(Manifest(Kinds(after.value.services), k.nextBackground, k.nextSubagent)))
  }

  lemma {:induction false} CompletePrefix(k: State, list: seq<(Addr, Kind)>, n: nat)
    requires n <= |list| && forall i | 0 <= i < |list| :: list[i].0 != KERNEL
    ensures Completed(k, list, n)
    decreases n
  {
    hide Mount, MountAll, Kinds;
    if n == 0 {
      assert MountAll(k, list[..0], true) == Some(k) by {
        SkipNothing(k, list);
      }
    } else {
      CompletePrefix(k, list, n - 1);
      SkipOneMore(k, list, n);
      var before := MountAll(k, list[..n - 1], true).value;
      var (a, kind) := list[n - 1];
      if a !in before.services {
        MountWorks(before, a, kind);
        MountManifest(before, a, kind);
        var after := Mount(before, a, kind).value;
        assert forall b :: b in after.services <==> b in before.services || b == a;
      }
    }
  }

  lemma {:induction false} SkipNothing(k: State, list: seq<(Addr, Kind)>)
    ensures MountAll(k, list[..0], true) == Some(k)
  {
  }

  lemma {:induction false} SkipOneMore(k: State, list: seq<(Addr, Kind)>, n: nat)
    requires 0 < n <= |list| && MountAll(k, list[..n - 1], true).Some?
    ensures var before, (a, kind) := MountAll(k, list[..n - 1], true).value, list[n - 1];
            MountAll(k, list[..n], true) == if a in before.services then Some(before) else Mount(before, a, kind)
  {
    hide Mount;
    assert list[..n][..n - 1] == list[..n - 1] && list[..n][n - 1] == list[n - 1];
  }

  lemma {:induction false} StandardAddresses()
    ensures forall i | 0 <= i < |STANDARD| :: STANDARD[i].0 != KERNEL
    ensures |STANDARD| > 0
  {
  }

  /**
   Opening after any end restores what the manifest lists, address by address and kind by kind, adds the standard
   services that are missing and nothing else, takes the counters from the manifest and writes it again.
   */
  lemma {:induction false} OpenRestores(k: State, config: Config, entries: seq<(Addr, Kind)>)
    requires Lists(entries, EntriesOf(k)) && KERNEL !in EntriesOf(k)
    ensures Open(k, config, entries).Some?
    ensures var after := Open(k, config, entries).value;
            && (forall a | a in EntriesOf(k) :: a in after.services && after.services[a].kind == EntriesOf(k)[a])
            && (forall i | 0 <= i < |STANDARD| :: STANDARD[i].0 in after.services)
            && (forall a | a in after.services && a !in EntriesOf(k) ::
                  exists i | 0 <= i < |STANDARD| :: STANDARD[i].0 == a && after.services[a].kind == STANDARD[i].1)
            && after.nextBackground == SavedBackground(k) && after.nextSubagent == SavedSubagent(k)
            && after.manifest == Some(Manifest(Kinds(after.services), SavedBackground(k), SavedSubagent(k)))
  {
    hide MountAll;
    var start := Loaded(k, config);
    MountPrefix(start, entries, EntriesOf(k), |entries|);
    assert entries[..|entries|] == entries;
    var restored := MountAll(start, entries, false).value;
    StandardAddresses();
    CompletePrefix(restored, STANDARD, |STANDARD|);
    assert STANDARD[..|STANDARD|] == STANDARD;
    var after := MountAll(restored, STANDARD, true).value;
    if entries == [] {
      assert restored.services == map[];
      assert STANDARD[0].0 in after.services;
      assert after != restored;
    }
    forall a
      ensures a in restored.services <==> a in EntriesOf(k)
    {
    }
  }

  // ----- Every run -----

  /** An opening reads the entries the manifest holds. */
  ghost predicate Legal(w: World, op: Op) {
    op.Reopen? && !w.running ==> Lists(op.entries, EntriesOf(w.k))
  }

  lemma {:induction false} StepKeeps(w: World, op: Op)
    requires Inv(w) && Legal(w, op)
    ensures Inv(Step(w, op))
  {
    hide Handle, Dispatch, Mount, Open, Routed;
    match op {
      case Route(call, order) =>
        if w.running && !(call.source == KERNEL && call.target == KERNEL) {
          RouteKeeps(w, call, order);
        }
      case MountAt(a, kind) =>
        if w.running && Mount(w.k, a, kind).Some? {
          MountManifest(w.k, a, kind);
        }
      case InboxCloses(a) =>
        if w.running && a in w.k.services {
          assert Kinds(w.k.services[a := w.k.services[a].(open := false)]) == Kinds(w.k.services);
        }
      case Exited(a) =>
      case Reopen(config, entries) =>
        if !w.running {
          OpenRestores(w.k, config, entries);
          var after := Open(w.k, config, entries).value;
          StandardAddresses();
          assert KERNEL !in after.services;
        }
      case _ =>
    }
  }

  function Run(w: World, ops: seq<Op>): World
    decreases |ops|
  {
    if ops == [] then w else Run(Step(w, ops[0]), ops[1..])
  }

  ghost predicate LegalRun(w: World, ops: seq<Op>)
    decreases |ops|
  {
    ops == [] || (Legal(w, ops[0]) && LegalRun(Step(w, ops[0]), ops[1..]))
  }

  lemma {:induction false} RunKeeps(w: World, ops: seq<Op>)
    requires Inv(w) && LegalRun(w, ops)
    ensures Inv(Run(w, ops))
    decreases |ops|
  {
    hide Inv, Step;
    if ops != [] {
      StepKeeps(w, ops[0]);
      RunKeeps(Step(w, ops[0]), ops[1..]);
    }
  }

  function Born(metadata: Metadata, config: Config): World {
    World(State(map[], metadata, config, 1, 1, None), false, [], [])
  }

  /**
   Over every life of a conversation: while it runs the manifest lists exactly the mounted services, and no number the
   kernel made up for a background session or subagent is ever handed out twice.
   */
  lemma {:induction false} ManifestInStep(metadata: Metadata, config: Config, ops: seq<Op>)
    requires LegalRun(Born(metadata, config), ops)
    ensures var w := Run(Born(metadata, config), ops);
            && (w.running ==> w.k.manifest.Some? && w.k.manifest.value.kinds == Kinds(w.k.services))
            && (forall i, j | 0 <= i < j < |w.madeBackground| :: w.madeBackground[i] != w.madeBackground[j])
            && (forall i, j | 0 <= i < j < |w.madeSubagent| :: w.madeSubagent[i] != w.madeSubagent[j])
  {
    RunKeeps(Born(metadata, config), ops);
  }

  /** Shutting down keeps the manifest; the next opening brings back the same addresses with the same kinds. */
  lemma {:induction false} ShutdownThenReopen(w: World, config: Config, entries: seq<(Addr, Kind)>)
    requires Inv(w) && w.running && Lists(entries, Kinds(w.k.services))
    ensures var down := Step(w, Shutdown);
            var up := Step(down, Reopen(config, entries));
            && !down.running && down.k.manifest == w.k.manifest && up.running
            && (forall a | a in w.k.services :: a in up.k.services && up.k.services[a].kind == w.k.services[a].kind)
            && (forall a | a in up.k.services && a !in w.k.services ::
                  exists i | 0 <= i < |STANDARD| :: STANDARD[i].0 == a && up.k.services[a].kind == STANDARD[i].1)
  {
    hide Open;
    var down := Step(w, Shutdown);
    OpenRestores(down.k, config, entries);
  }
}
