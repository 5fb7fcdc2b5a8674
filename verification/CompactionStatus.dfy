/** When user memory is compacted: the status machine beside the stored entries. */
module CompactionStatus {
  import opened Wrappers
  import opened Text
  import opened MemoryEntries
  import opened MemoryCompaction
  import opened MemoryStore

  datatype State = Idle | Dirty | HardPending | RetryWaiting | Running

  datatype Problem =
    | NotSmaller(input: nat, output: nat)
    | SoftNotSmaller(softInput: nat, softOutput: nat)
    | Failed(message: string)

  datatype Status = Status(
    state: State,
    attempts: nat,
    lastError: Option<Problem>,
    nextRetryAt: Option<Time>,
    lastInputHash: string,
    lastOutputHash: string,
    override: Option<nat>,
    lastSoftDay: Option<int>,
    updatedAt: Time)

  /** `render` hashes the rendered prompt text; `day` names the day of an instant. */
  datatype Options = Options(
    soft: nat,
    hard: nat,
    retryAfter: nat,
    hasModel: bool,
    daily: bool,
    render: seq<Entry> -> string,
    day: Time -> int)

  /** `MemoryOptions::normalized` leaves the hard threshold at or above the soft one. */
  predicate Normalized(o: Options) {
    512 <= o.soft <= o.hard
  }

  datatype Memory = Memory(store: Store, status: Status)

  const U32_MAX: nat := 0xffff_ffff

  function Bump(attempts: nat): nat {
    if attempts < U32_MAX then attempts + 1 else attempts
  }

  function SaturatingSucc(n: nat): nat {
    if n + 1 < U64_LIMIT then n + 1 else n
  }

  function Size(entries: seq<Entry>): nat {
    RenderedBytes(Actives(entries))
  }

  // ----- Status updates -----

  /** `refresh_user_compaction_status`. */
  function Refresh(s: Status, entries: seq<Entry>, o: Options, now: Time): Status {
    var size := Size(entries);
    var seen := s.(lastInputHash := o.render(Actives(entries)), updatedAt := now);
    var threshold := s.override.UnwrapOr(o.hard);
    if s.state == RetryWaiting && size >= threshold && s.nextRetryAt.Some? && s.nextRetryAt.value > now then seen
    else if s.state == Running then seen
    else if size >= threshold then seen.(state := HardPending)
    else if size >= o.soft then seen.(state := Dirty)
    else seen.(state := Idle, attempts := 0, lastError := None, nextRetryAt := None, override := None)
  }

  function AfterFailure(s: Status, o: Options, message: string, now: Time): Status {
    s.(state := RetryWaiting, attempts := Bump(s.attempts), lastError := Some(Failed(message)),
       nextRetryAt := Some(now + o.retryAfter), updatedAt := now)
  }

  function AfterNoShrink(s: Status, o: Options, input: nat, output: nat, now: Time): Status {
    var counted := s.(attempts := Bump(s.attempts), lastError := Some(NotSmaller(input, output)), nextRetryAt := None,
                      updatedAt := now);
    if counted.attempts == 1 then counted.(state := HardPending)
    else counted.(state := Idle,
                  override := Some(if SaturatingSucc(input) >= o.hard then SaturatingSucc(input) else o.hard))
  }

  function AfterSuccess(s: Status, o: Options, output: seq<Entry>, now: Time): Status {
    s.(state := Idle, attempts := 0, lastError := None, nextRetryAt := None,
       lastOutputHash := o.render(Actives(output)), override := None, lastSoftDay := Some(o.day(now)), updatedAt := now)
  }

  function AfterSoft(s: Status, o: Options, problem: Problem, now: Time): Status {
    s.(state := Dirty, lastError := Some(problem), lastSoftDay := Some(o.day(now)), updatedAt := now)
  }

  // ----- Passes -----

  /** One round of the local filter. */
  function FilterOnce(codec: Codec, m: Memory, o: Options, now: Time): Memory {
    var output := Compact(codec, m.store.entries);
    if Size(output) < Size(m.store.entries) then
      match Save(codec, output)
      case Ok(saved) => Memory(saved, AfterSuccess(m.status, o, output, now))
      case Err(_) => m
    else m.(status := AfterNoShrink(m.status, o, Size(m.store.entries), Size(output), now))
  }

  /** What the provider does during a pass: an error, or a proposed list. */
  datatype Answer = ProviderError(message: string) | ProposedList(items: seq<Proposed>, source: Source)

  datatype Outcome = Shrunk(memory: Memory) | NoShrink(input: nat, output: nat) | Broken(message: string)

  /** `run_provider_user_compaction` up to the recording of its outcome. */
  function AskModel(codec: Codec, m: Memory, o: Options, answer: Answer, now: Time): Outcome {
    match answer
    case ProviderError(message) => Broken(message)
    case ProposedList(items, source) =>
      match BuildFrom(codec, m.store.entries, source, BuildStart(m.store.entries), items, now)
      case Err(message) => Broken(message)
      case Ok(built) =>
        if Size(built.output) >= Size(m.store.entries) then NoShrink(Size(m.store.entries), Size(built.output))
        else
          match Save(codec, built.output)
          case Err(message) => Broken(message)
          case Ok(saved) => Shrunk(Memory(saved, AfterSuccess(m.status, o, built.output, now)))
  }

  /** `run_user_hard_compaction_if_pending`. Without a model the local filter runs at most twice. */
  function HardPass(codec: Codec, m: Memory, o: Options, answer: Answer, now: Time): Memory {
    if m.status.state != HardPending then m
    else if o.hasModel then
      match AskModel(codec, m, o, answer, now)
      case Shrunk(after) => after
      case NoShrink(input, output) => m.(status := AfterNoShrink(m.status, o, input, output, now))
      case Broken(message) => m.(status := AfterFailure(m.status, o, message, now))
    else
      var first := FilterOnce(codec, m, o, now);
      if Size(Compact(codec, m.store.entries)) >= Size(m.store.entries) && first.status.state == HardPending
      then FilterOnce(codec, first, o, now)
      else first
  }

  predicate SoftDue(s: Status, o: Options, now: Time) {
    s.state == Dirty && o.hasModel && o.daily && s.lastSoftDay != Some(o.day(now))
  }

  function SoftPass(codec: Codec, m: Memory, o: Options, answer: Answer, now: Time): Memory {
    if !SoftDue(m.status, o, now) then m
    else
      match AskModel(codec, m, o, answer, now)
      case Shrunk(after) => after
      case NoShrink(input, output) => m.(status := AfterSoft(m.status, o, SoftNotSmaller(input, output), now))
      case Broken(message) => m.(status := AfterSoft(m.status, o, Failed(message), now))
  }

  function RetryDue(s: Status, now: Time): Status {
    if s.state == RetryWaiting && s.nextRetryAt.Some? && s.nextRetryAt.value <= now
    then s.(state := HardPending, nextRetryAt := None, updatedAt := now) else s
  }

  /** `maintain_user_memory`. */
  function Maintain(codec: Codec, m: Memory, o: Options, hard: Answer, soft: Answer, now: Time): Memory {
    var refreshed := m.(status := RetryDue(Refresh(m.status, m.store.entries, o, now), now));
    SoftPass(codec, HardPass(codec, refreshed, o, hard, now), o, soft, now)
  }

  // ----- A model can only improve the store -----

  /** A pass replaces the entries only by fewer rendered bytes; in every other case they stay as they are. */
  lemma {:induction false} MaintainOnlyShrinks(codec: Codec, m: Memory, o: Options, hard: Answer, soft: Answer,
                                               now: Time)
    ensures var after := Maintain(codec, m, o, hard, soft, now);
            after.store == m.store || Size(after.store.entries) < Size(m.store.entries)
  {
    hide Compact, BuildFrom, RenderedBytes, Refresh;
    var refreshed := m.(status := RetryDue(Refresh(m.status, m.store.entries, o, now), now));
    HardOnlyShrinks(codec, refreshed, o, hard, now);
    SoftOnlyShrinks(codec, HardPass(codec, refreshed, o, hard, now), o, soft, now);
  }

  lemma {:induction false} SavedSize(codec: Codec, entries: seq<Entry>)
    requires Save(codec, entries).Ok?
    ensures Size(Save(codec, entries).value.entries) == Size(entries)
  {
    AllActive(Actives(entries));
  }

  lemma {:induction false} FilterOnlyShrinks(codec: Codec, m: Memory, o: Options, now: Time)
    ensures var after := FilterOnce(codec, m, o, now);
            after.store == m.store || Size(after.store.entries) < Size(m.store.entries)
  {
    hide Compact, Size, Save;
    if Save(codec, Compact(codec, m.store.entries)).Ok? {
      SavedSize(codec, Compact(codec, m.store.entries));
    }
  }

  lemma {:induction false} AskOnlyShrinks(codec: Codec, m: Memory, o: Options, answer: Answer, now: Time)
    ensures var outcome := AskModel(codec, m, o, answer, now);
            outcome.Shrunk? ==> Size(outcome.memory.store.entries) < Size(m.store.entries)
  {
    hide Size, Save, BuildFrom;
    if answer.ProposedList? {
      var built := BuildFrom(codec, m.store.entries, answer.source, BuildStart(m.store.entries), answer.items, now);
      if built.Ok? && Save(codec, built.value.output).Ok? {
        SavedSize(codec, built.value.output);
      }
    }
  }

  lemma {:induction false} HardOnlyShrinks(codec: Codec, m: Memory, o: Options, answer: Answer, now: Time)
    ensures var after := HardPass(codec, m, o, answer, now);
            after.store == m.store || Size(after.store.entries) < Size(m.store.entries)
  {
    hide AskModel, FilterOnce, Size, Compact;
    AskOnlyShrinks(codec, m, o, answer, now);
    FilterOnlyShrinks(codec, m, o, now);
    FilterOnlyShrinks(codec, FilterOnce(codec, m, o, now), o, now);
  }

  lemma {:induction false} SoftOnlyShrinks(codec: Codec, m: Memory, o: Options, answer: Answer, now: Time)
    ensures var after := SoftPass(codec, m, o, answer, now);
            after.store == m.store || Size(after.store.entries) < Size(m.store.entries)
  {
    hide AskModel, Size;
    AskOnlyShrinks(codec, m, o, answer, now);
  }

  // ----- Settling without a model -----

  function Untimed(m: Memory): Memory {
    m.(status := m.status.(updatedAt := 0))
  }

  /** Maintenance passes without a model, at the given times. */
  function Passes(codec: Codec, m: Memory, o: Options, times: seq<Time>): Memory
    decreases |times|
  {
    if times == [] then m
    else Passes(codec, Maintain(codec, m, o, ProviderError(""), ProviderError(""), times[0]), o, times[1..])
  }

  /** One pass without a model: refresh, then the local filter if it is pending. */
  lemma {:induction false} LocalPass(codec: Codec, m: Memory, o: Options, now: Time)
    requires !o.hasModel && m.status.state != RetryWaiting
    ensures Maintain(codec, m, o, ProviderError(""), ProviderError(""), now)
         == HardPass(codec, m.(status := Refresh(m.status, m.store.entries, o, now)), o, ProviderError(""), now)
  {
    hide Size, HardPass;
  }

  /** Nothing is pending: the pass only refreshes, and any later pass changes nothing but timestamps. */
  predicate Calm(m: Memory, o: Options) {
    m.status.state == Running
    || (m.status.state != RetryWaiting && Size(m.store.entries) < m.status.override.UnwrapOr(o.hard))
  }

  lemma {:induction false} CalmPass(codec: Codec, m: Memory, o: Options, now: Time)
    requires !o.hasModel && Normalized(o) && Calm(m, o)
    ensures var after := Maintain(codec, m, o, ProviderError(""), ProviderError(""), now);
            && after == m.(status := Refresh(m.status, m.store.entries, o, now))
            && Calm(after, o) && after.status.state != HardPending
  {
    hide Size, FilterOnce;
    LocalPass(codec, m, o, now);
  }

  /** A second refresh over the same entries repeats the first. */
  lemma {:induction false} RefreshSettles(s: Status, entries: seq<Entry>, o: Options, first: Time, second: Time)
    requires Normalized(o)
    requires s.state == Running || (s.state != RetryWaiting && Size(entries) < s.override.UnwrapOr(o.hard))
    ensures Refresh(Refresh(s, entries, o, first), entries, o, second).(updatedAt := 0)
         == Refresh(s, entries, o, first).(updatedAt := 0)
  {
    hide Size;
  }

  lemma {:induction false} CalmStays(codec: Codec, m: Memory, o: Options, first: Time, times: seq<Time>)
    requires !o.hasModel && Normalized(o) && Calm(m, o)
    ensures var settled := Maintain(codec, m, o, ProviderError(""), ProviderError(""), first);
            Untimed(Passes(codec, settled, o, times)) == Untimed(settled)
    decreases |times|
  {
    hide Size, Maintain, Refresh;
    var settled := Maintain(codec, m, o, ProviderError(""), ProviderError(""), first);
    CalmPass(codec, m, o, first);
    if times != [] {
      var next := Maintain(codec, settled, o, ProviderError(""), ProviderError(""), times[0]);
      CalmPass(codec, settled, o, times[0]);
      RefreshSettles(m.status, m.store.entries, o, first, times[0]);
      CalmStays(codec, settled, o, times[0], times[1..]);
    }
  }

  /** The filter finds nothing: after the pass the threshold is above the size. */
  lemma {:induction false} PendingWithoutShrink(codec: Codec, m: Memory, o: Options, now: Time)
    requires !o.hasModel && m.status.state == HardPending
    requires Size(Compact(codec, m.store.entries)) >= Size(m.store.entries)
    requires Size(m.store.entries) + 1 < U64_LIMIT
    ensures var after := HardPass(codec, m, o, ProviderError(""), now);
            && after.store == m.store && after.status.state == Idle
            && after.status.override.Some? && Size(m.store.entries) < after.status.override.value
  {
    hide Size, Compact, Save;
  }

  /** The filter shrinks: the new entries are saved and a second filter would find nothing. */
  lemma {:induction false} PendingWithShrink(codec: Codec, m: Memory, o: Options, now: Time)
    requires !o.hasModel && m.status.state == HardPending && Inv(codec, User, m.store)
    requires Size(Compact(codec, m.store.entries)) < Size(m.store.entries)
    ensures var after := HardPass(codec, m, o, ProviderError(""), now);
            && after.status.state == Idle && after.status.override == None
            && after.store.entries == Compact(codec, m.store.entries)
            && Size(Compact(codec, after.store.entries)) >= Size(after.store.entries)
            && Size(after.store.entries) < Size(m.store.entries)
  {
    hide Size, LineBytes, KeepFirsts, Inv, HashOf;
    var output := Compact(codec, m.store.entries);
    SmallerSaves(codec, m.store);
    CompactIdempotent(codec, m.store.entries);
  }

  lemma {:induction false} SmallerSaves(codec: Codec, store: Store)
    requires Inv(codec, User, store)
    ensures var saved := Save(codec, Compact(codec, store.entries));
            saved.Ok? && saved.value.entries == Compact(codec, store.entries)
  {
    hide GoodEntry, HashOf, MaxNumber;
    KeepFirstsDistinct(codec, store.entries, {});
    KeepFirstsShrinks(codec, store.entries, {});
    AllActive(store.entries);
    AllActive(Compact(codec, store.entries));
  }

  lemma {:induction false} RefreshKinds(s: Status, entries: seq<Entry>, o: Options, now: Time)
    requires s.state != RetryWaiting
    ensures var r := Refresh(s, entries, o, now);
            && r.state in {Running, HardPending, Dirty, Idle}
            && (r.state == HardPending <==> s.state != Running && Size(entries) >= s.override.UnwrapOr(o.hard))
  {
    hide Size;
  }

  /** After one pass the memory is calm, unless the filter shrank it; then two more passes are enough. */
  lemma {:induction false} PassOutcome(codec: Codec, m: Memory, o: Options, now: Time)
    requires !o.hasModel && Normalized(o) && m.status.state != RetryWaiting && Inv(codec, User, m.store)
    requires Size(m.store.entries) + 1 < U64_LIMIT
    ensures var after := Maintain(codec, m, o, ProviderError(""), ProviderError(""), now);
            var shrinks := Size(Compact(codec, m.store.entries)) < Size(m.store.entries);
            && after.status.state != RetryWaiting
            && (!shrinks ==> Calm(after, o))
            && (!Calm(m, o) && shrinks ==>
                  && after.store.entries == Compact(codec, m.store.entries)
                  && Size(Compact(codec, after.store.entries)) >= Size(after.store.entries))
            && (Calm(m, o) ==> Calm(after, o))
            && Size(after.store.entries) <= Size(m.store.entries)
  {
    hide Size, Compact, Inv, HardPass, Maintain, Refresh;
    LocalPass(codec, m, o, now);
    RefreshKinds(m.status, m.store.entries, o, now);
    var refreshed := m.(status := Refresh(m.status, m.store.entries, o, now));
    if Calm(m, o) {
      CalmPass(codec, m, o, now);
    } else if Size(Compact(codec, m.store.entries)) >= Size(m.store.entries) {
      PendingWithoutShrink(codec, refreshed, o, now);
    } else {
      PendingWithShrink(codec, refreshed, o, now);
    }
  }

  lemma {:induction false} PassKeepsInv(codec: Codec, m: Memory, o: Options, now: Time)
    requires !o.hasModel && m.status.state != RetryWaiting && Inv(codec, User, m.store)
    requires m.store.nextId.UnwrapOr(1) < U64_LIMIT
    ensures var after := Maintain(codec, m, o, ProviderError(""), ProviderError(""), now);
            Inv(codec, User, after.store) && after.store.nextId.UnwrapOr(1) <= m.store.nextId.UnwrapOr(1)
  {
    hide Size, Compact, Inv, Refresh, Maintain;
    LocalPass(codec, m, o, now);
    var refreshed := m.(status := Refresh(m.status, m.store.entries, o, now));
    FilterOnceKeeps(codec, refreshed, o, now);
    FilterOnceKeeps(codec, FilterOnce(codec, refreshed, o, now), o, now);
  }

  lemma {:induction false} FilterOnceKeeps(codec: Codec, m: Memory, o: Options, now: Time)
    requires Inv(codec, User, m.store) && m.store.nextId.UnwrapOr(1) < U64_LIMIT
    ensures var after := FilterOnce(codec, m, o, now);
            Inv(codec, User, after.store) && after.store.nextId.UnwrapOr(1) <= m.store.nextId.UnwrapOr(1)
  {
    hide Inv, Compact, RenderedBytes, Save;
    FilterKeeps(codec, User, m.store);
  }

  /**
   Local compaction settles: without a model and outside a retry wait, three maintenance passes at any times reach
   a state that no later pass changes apart from its timestamp.
   */
  lemma {:induction false} LocalCompactionSettles(codec: Codec, m: Memory, o: Options, a: Time, b: Time, c: Time,
                                                  later: seq<Time>)
    requires !o.hasModel && Normalized(o) && m.status.state != RetryWaiting && Inv(codec, User, m.store)
    requires Size(m.store.entries) + 1 < U64_LIMIT && m.store.nextId.UnwrapOr(1) < U64_LIMIT
    ensures var settled := Passes(codec, m, o, [a, b, c]);
            Untimed(Passes(codec, settled, o, later)) == Untimed(settled)
  {
    hide Size, Compact, Inv, Maintain, Untimed, Calm;
    var one := Maintain(codec, m, o, ProviderError(""), ProviderError(""), a);
    var two := Maintain(codec, one, o, ProviderError(""), ProviderError(""), b);
    var three := Maintain(codec, two, o, ProviderError(""), ProviderError(""), c);
    PassOutcome(codec, m, o, a);
    PassKeepsInv(codec, m, o, a);
    PassOutcome(codec, one, o, b);
    assert Calm(two, o);
    CalmStays(codec, two, o, c, later);
    ThreePasses(codec, m, o, a, b, c);
  }

  lemma {:induction false} ThreePasses(codec: Codec, m: Memory, o: Options, a: Time, b: Time, c: Time)
    ensures var one := Maintain(codec, m, o, ProviderError(""), ProviderError(""), a);
            var two := Maintain(codec, one, o, ProviderError(""), ProviderError(""), b);
            Passes(codec, m, o, [a, b, c]) == Maintain(codec, two, o, ProviderError(""), ProviderError(""), c)
  {
    hide Maintain;
    assert [a, b, c][1..] == [b, c] && [b, c][1..] == [c] && [c][1..] == [];
    var one := Maintain(codec, m, o, ProviderError(""), ProviderError(""), a);
    var two := Maintain(codec, one, o, ProviderError(""), ProviderError(""), b);
    assert Passes(codec, one, o, [b, c]) == Passes(codec, two, o, [c]);
    var three := Maintain(codec, two, o, ProviderError(""), ProviderError(""), c);
    assert Passes(codec, two, o, [c]) == Passes(codec, three, o, []);
  }
}
