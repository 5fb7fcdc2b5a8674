/** The stored entries of one scope with their manifest, every operation on them, and what all runs keep. */
module MemoryStore {
  import opened Wrappers
  import opened Text
  import opened MemoryEntries
  import opened MemoryConsistency
  import opened MemoryCompaction

  /** `entries.jsonl` and the id counter of the manifest; there is no manifest before the first write. */
  datatype Store = Store(entries: seq<Entry>, nextId: Option<nat>)

  const EMPTY: Store := Store([], None)

  /** `write_entries_and_manifest`: only active entries are written, within both limits. */
  function Save(codec: Codec, entries: seq<Entry>): Result<Store, string> {
    var kept := Actives(entries);
    if |kept| > MAX_ENTRIES then Err("memory_store_entry_limit")
    else if LineBytes(codec, kept) > MAX_STORE_BYTES then Err("memory_store_too_large")
    else Ok(Store(kept, Some(NextNumber(entries))))
  }

  // ----- Operations -----

  datatype Draft = Draft(subject: Option<string>, text: string, tags: seq<string>, source: Source)

  /** A ranked search hit: a position among the entries and its score. */
  datatype Hit = Hit(index: nat, score: real)

  datatype Decision =
    | Local
    | ModelFailed(reason: string)
    | ModelActions(actions: seq<Action>)

  datatype Op =
    | Write(draft: Draft, hits: seq<Hit>, decision: Decision, now: Time)
    | Rewrite(updateId: string, text: string, now: Time)
    | Remove(removeId: string, now: Time)
    | Accessed(ids: set<string>, now: Time)
    | Filter
    | Propose(items: seq<Proposed>, source: Source, now: Time)

  datatype Reply = Success | Failure(reason: string) | Rejected(error: string)

  function Committed(codec: Codec, store: Store, entries: seq<Entry>): (Store, Reply) {
    match Save(codec, entries)
    case Ok(saved) => (saved, Success)
    case Err(error) => (store, Rejected(error))
  }

  function DraftEntry(codec: Codec, scope: Scope, draft: Draft, now: Time): Entry {
    Entry("", scope, CleanSubject(draft.subject), Trim(draft.text), CleanTags(codec, draft.tags), now, now, None,
          draft.source, true)
  }

  function FindSame(codec: Codec, entries: seq<Entry>, hash: string): (i: nat)
    ensures i <= |entries|
    ensures i < |entries| ==> entries[i].active && HashOf(codec, entries[i]) == hash
    ensures forall j | 0 <= j < i :: !(entries[j].active && HashOf(codec, entries[j]) == hash)
  {
    if entries == [] || (entries[0].active && HashOf(codec, entries[0]) == hash) then 0
    else 1 + FindSame(codec, entries[1..], hash)
  }

  function Select(entries: seq<Entry>, hits: seq<Hit>): (r: seq<Candidate>)
    ensures forall i | 0 <= i < |r| :: r[i].entry in entries
  {
    if hits == [] then []
    else
      (if hits[0].index < |entries| then [Candidate(entries[hits[0].index], hits[0].score)] else [])
      + Select(entries, hits[1..])
  }

  function WriteEntry(codec: Codec, scope: Scope, store: Store, draft: Draft, hits: seq<Hit>, decision: Decision,
                      now: Time): (Store, Reply)
  {
    if !ValidText(draft.text) then (store, Rejected("invalid text"))
    else
      var entry := DraftEntry(codec, scope, draft, now);
      var same := FindSame(codec, store.entries, HashOf(codec, entry));
      if same < |store.entries| then
        Committed(codec, store, store.entries[same := Edit(store.entries[same], Touch(""), entry, now)])
      else
        var candidates := Select(store.entries, hits);
        if decision.ModelFailed? then (store, Failure(decision.reason))
        else
          var actions := if decision.Local? then LocalDecision(codec, entry, candidates) else decision.actions;
          if !Validated(actions, candidates) then (store, Rejected("invalid_action"))
          else Committed(codec, store, ApplyActions(store.entries, scope, store.nextId, entry, actions, now))
  }

  function FindActiveId(entries: seq<Entry>, id: string): (i: nat)
    ensures i <= |entries|
    ensures i < |entries| ==> entries[i].id == id && entries[i].active
    ensures forall j | 0 <= j < i :: !(entries[j].id == id && entries[j].active)
  {
    if entries == [] || (entries[0].id == id && entries[0].active) then 0 else 1 + FindActiveId(entries[1..], id)
  }

  function RewriteEntry(codec: Codec, store: Store, id: string, text: string, now: Time): (Store, Reply) {
    if !ValidText(text) then (store, Rejected("invalid text"))
    else if ScopeOfId(id).None? then (store, Rejected("invalid memory id"))
    else
      var at := FindActiveId(store.entries, id);
      if at == |store.entries| then (store, Failure("memory_not_found"))
      else Committed(codec, store, store.entries[at := store.entries[at].(text := Trim(text), updatedAt := now)])
  }

  function RemoveEntry(codec: Codec, store: Store, id: string, now: Time): (Store, Reply) {
    if ScopeOfId(id).None? then (store, Rejected("invalid memory id"))
    else
      var at := FindActiveId(store.entries, id);
      if at == |store.entries| then (store, Failure("memory_not_found"))
      else Committed(codec, store, store.entries[at := store.entries[at].(active := false, updatedAt := now)])
  }

  /** A search writes the access time of the entries it returned, and only when it returned one. */
  function MarkAccessed(entries: seq<Entry>, ids: set<string>, now: Time): (r: seq<Entry>)
    ensures |r| == |entries|
    ensures forall i | 0 <= i < |r| ::
              r[i] == if entries[i].id in ids then entries[i].(lastAccessedAt := Some(now)) else entries[i]
  {
    seq(|entries|, i requires 0 <= i < |entries| =>
          if entries[i].id in ids then entries[i].(lastAccessedAt := Some(now)) else entries[i])
  }

  function AccessEntries(codec: Codec, store: Store, ids: set<string>, now: Time): (Store, Reply) {
    if forall i | 0 <= i < |store.entries| :: store.entries[i].id !in ids then (store, Success)
    else Committed(codec, store, MarkAccessed(store.entries, ids, now))
  }

  /** A replacement list is written only when it renders strictly smaller. */
  function ReplaceIfSmaller(codec: Codec, store: Store, output: seq<Entry>): (Store, Reply) {
    if RenderedBytes(Actives(output)) < RenderedBytes(Actives(store.entries)) then Committed(codec, store, output)
    else (store, Failure("no_shrink"))
  }

  function ProposeEntries(codec: Codec, scope: Scope, store: Store, items: seq<Proposed>, source: Source, now: Time)
    : (Store, Reply)
  {
    if scope != User then (store, Rejected("user_compaction_requires_user_scope"))
    else
      match BuildFrom(codec, store.entries, source, BuildStart(store.entries), items, now)
      case Err(error) => (store, Rejected(error))
      case Ok(built) => ReplaceIfSmaller(codec, store, built.output)
  }

  function Step(codec: Codec, scope: Scope, store: Store, op: Op): (Store, Reply) {
    match op
    case Write(draft, hits, decision, now) => WriteEntry(codec, scope, store, draft, hits, decision, now)
    case Rewrite(id, text, now) => RewriteEntry(codec, store, id, text, now)
    case Remove(id, now) => RemoveEntry(codec, store, id, now)
    case Accessed(ids, now) => AccessEntries(codec, store, ids, now)
    case Filter => ReplaceIfSmaller(codec, store, Compact(codec, store.entries))
    case Propose(items, source, now) => ProposeEntries(codec, scope, store, items, source, now)
  }

  function Run(codec: Codec, scope: Scope, store: Store, ops: seq<Op>): Store
    decreases |ops|
  {
    if ops == [] then store else Run(codec, scope, Step(codec, scope, store, ops[0]).0, ops[1..])
  }

  // ----- The invariant -----

  predicate OwnId(scope: Scope, id: string, limit: nat) {
    IdNumber(id).Some? && id == MakeId(scope, IdNumber(id).value) && IdNumber(id).value < limit
  }

  predicate GoodEntry(scope: Scope, e: Entry, limit: nat) {
    e.scope == scope && OwnId(scope, e.id, limit) && StoredText(e.text)
  }

  predicate AllGood(scope: Scope, entries: seq<Entry>, limit: nat) {
    forall i | 0 <= i < |entries| :: GoodEntry(scope, entries[i], limit)
  }

  /**
   Ids are distinct and carry the scope's prefix, texts are trimmed, non-empty and short, both size limits hold,
   and the manifest's counter is above every stored number.
   */
  predicate Inv(codec: Codec, scope: Scope, store: Store) {
    && DistinctIds(store.entries)
    && (forall i | 0 <= i < |store.entries| :: store.entries[i].active)
    && AllGood(scope, store.entries, store.nextId.UnwrapOr(0)) && store.nextId != Some(0)
    && |store.entries| <= MAX_ENTRIES && LineBytes(codec, store.entries) <= MAX_STORE_BYTES
  }

  /** An operation that does not succeed leaves the store as it was. */
  lemma {:induction false} UnsuccessfulKeepsStore(codec: Codec, scope: Scope, store: Store, op: Op)
    ensures var (after, reply) := Step(codec, scope, store, op);
            !reply.Success? ==> after == store
  {
    hide ValidText, ApplyActions, Validated, LocalDecision, HashOf, Select, Save, Trim, ScopeOfId, Compact, BuildFrom,
         RenderedBytes, MarkAccessed, DraftEntry, FindSame, FindActiveId, Edit;
  }

  lemma {:induction false} GoodBelow(scope: Scope, entries: seq<Entry>, limit: nat)
    requires AllGood(scope, entries, limit)
    ensures MaxNumber(entries) < limit || MaxNumber(entries) == 0
    decreases |entries|
  {
    if entries != [] {
      GoodBelow(scope, entries[..|entries| - 1], limit);
      assert GoodEntry(scope, entries[|entries| - 1], limit);
    }
  }

  /** Saving good entries with distinct ids gives a good store whose counter is at most `limit`. */
  lemma {:induction false} SaveKeeps(codec: Codec, scope: Scope, entries: seq<Entry>, limit: nat)
    requires DistinctIds(entries) && AllGood(scope, entries, limit) && 0 < limit < U64_LIMIT
    ensures var saved := Save(codec, entries);
            saved.Ok? ==> Inv(codec, scope, saved.value) && 0 < saved.value.nextId.value <= limit
  {
    hide OwnId, StoredText, LineBytes, MaxNumber;
    GoodBelow(scope, entries, limit);
    NextNumberAbove(entries);
    ActivesKeepDistinct(entries);
    var kept, next := Actives(entries), NextNumber(entries);
    forall i | 0 <= i < |kept|
      ensures GoodEntry(scope, kept[i], next)
    {
      assert kept[i] in entries;
      var k :| 0 <= k < |entries| && entries[k] == kept[i];
      NumberKept(scope, entries, k, limit, next);
    }
  }

  lemma {:induction false} NumberKept(scope: Scope, entries: seq<Entry>, k: nat, limit: nat, next: nat)
    requires k < |entries| && GoodEntry(scope, entries[k], limit) && MaxNumber(entries) < next
    ensures GoodEntry(scope, entries[k], next)
  {
    hide MakeId, StoredText;
  }

  lemma {:induction false} CommittedKeeps(codec: Codec, scope: Scope, store: Store, entries: seq<Entry>, limit: nat)
    requires Inv(codec, scope, store) && store.nextId.UnwrapOr(0) <= limit
    requires DistinctIds(entries) && AllGood(scope, entries, limit) && 0 < limit < U64_LIMIT
    ensures var after := Committed(codec, store, entries).0;
            Inv(codec, scope, after) && after.nextId.UnwrapOr(0) <= limit
  {
    hide Inv, AllGood;
    SaveKeeps(codec, scope, entries, limit);
  }

  lemma {:induction false} GoodGrows(scope: Scope, entries: seq<Entry>, limit: nat, more: nat)
    requires AllGood(scope, entries, limit) && limit <= more
    ensures AllGood(scope, entries, more)
  {
    hide MakeId, StoredText, IdNumber;
  }

  // ----- Each operation keeps it -----

  lemma {:induction false} UpdateOneKeeps(codec: Codec, scope: Scope, store: Store, at: nat, e: Entry, limit: nat)
    requires Inv(codec, scope, store) && store.nextId.UnwrapOr(0) <= limit && 0 < limit < U64_LIMIT
    requires at < |store.entries| && e.id == store.entries[at].id && e.scope == scope && StoredText(e.text)
    ensures var after := Committed(codec, store, store.entries[at := e]).0;
            Inv(codec, scope, after) && after.nextId.UnwrapOr(0) <= limit
  {
    hide OwnId, StoredText, LineBytes, Committed;
    var entries := store.entries[at := e];
    GoodGrows(scope, store.entries, store.nextId.UnwrapOr(0), limit);
    forall i | 0 <= i < |entries|
      ensures GoodEntry(scope, entries[i], limit)
    {
      assert GoodEntry(scope, store.entries[i], limit);
    }
    CommittedKeeps(codec, scope, store, entries, limit);
  }

  lemma {:induction false} EditAllGood(scope: Scope, e: Entry, limit: nat, actions: seq<Action>, draft: Entry,
                                       now: Time)
    requires GoodEntry(scope, e, limit)
    requires forall k | 0 <= k < |actions| && actions[k].Update? :: ValidText(actions[k].text)
    ensures GoodEntry(scope, EditAll(e, actions, draft, now), limit)
    decreases |actions|
  {
    hide OwnId, StoredText, ValidText, Trim;
    if actions != [] {
      var before, last := actions[..|actions| - 1], actions[|actions| - 1];
      EditAllGood(scope, e, limit, before, draft, now);
      if last.Update? {
        TrimmedIsStored(last.text);
      }
    }
  }

  lemma {:induction false} CandidatesStored(entries: seq<Entry>, hits: seq<Hit>, actions: seq<Action>)
    requires Validated(actions, Select(entries, hits))
    ensures NamesStored(entries, actions)
    ensures forall k | 0 <= k < |actions| && actions[k].Update? :: ValidText(actions[k].text)
  {
    hide ValidText, Select;
    var candidates := Select(entries, hits);
    forall k | 0 <= k < |actions| && !actions[k].Insert?
      ensures FindEntry(entries, actions[k].id) < |entries|
    {
      assert ValidAction(actions[k], candidates);
      var i :| 0 <= i < |candidates| && candidates[i].entry.id == actions[k].id;
      assert candidates[i].entry in entries;
      var j :| 0 <= j < |entries| && entries[j] == candidates[i].entry;
      assert entries[j].id == actions[k].id;
    }
    forall k | 0 <= k < |actions| && actions[k].Update?
      ensures ValidText(actions[k].text)
    {
      assert ValidAction(actions[k], candidates);
    }
  }

  /** The id of an inserted entry is the announced number, so it is new. */
  lemma {:induction false} InsertedFresh(codec: Codec, scope: Scope, store: Store)
    requires Inv(codec, scope, store) && store.nextId.UnwrapOr(0) < U64_LIMIT
    ensures var next := store.nextId.UnwrapOr(NextNumber(store.entries));
            && (forall i | 0 <= i < |store.entries| :: store.entries[i].id != MakeId(scope, next))
            && next <= store.nextId.UnwrapOr(1)
  {
    hide MakeId, StoredText, LineBytes;
    var next := store.nextId.UnwrapOr(NextNumber(store.entries));
    if store.nextId.Some? {
      IdNumberOfMakeId(scope, next);
      forall i | 0 <= i < |store.entries|
        ensures store.entries[i].id != MakeId(scope, next)
      {
        assert GoodEntry(scope, store.entries[i], next);
      }
    } else {
      NoneBelowZero(codec, scope, store);
    }
  }

  lemma {:induction false} InsertedGood(scope: Scope, n: nat, draft: Entry, now: Time, limit: nat)
    requires n < limit < U64_LIMIT && draft.scope == scope && StoredText(draft.text)
    ensures GoodEntry(scope, Inserted(scope, n, draft, now), limit)
  {
    hide StoredText, MakeId;
    IdNumberOfMakeId(scope, n);
  }

  lemma {:induction false} ApplyKeeps(codec: Codec, scope: Scope, store: Store, draft: Entry, actions: seq<Action>,
                                      now: Time)
    requires Inv(codec, scope, store) && store.nextId.UnwrapOr(1) + 1 < U64_LIMIT
    requires draft.scope == scope && StoredText(draft.text)
    requires NamesStored(store.entries, actions) && Inserts(actions) <= 1
    requires forall k | 0 <= k < |actions| && actions[k].Update? :: ValidText(actions[k].text)
    ensures var entries := ApplyActions(store.entries, scope, store.nextId, draft, actions, now);
            DistinctIds(entries) && AllGood(scope, entries, store.nextId.UnwrapOr(1) + 1)
  {
    hide StoredText, ValidText, OwnId, LineBytes, ApplyActions, MakeId, EditAll;
    var limit := store.nextId.UnwrapOr(1) + 1;
    AppliedEntries(store.entries, scope, store.nextId, draft, actions, now);
    InsertedFresh(codec, scope, store);
    GoodGrows(scope, store.entries, store.nextId.UnwrapOr(0), limit);
    forall i | 0 <= i < |store.entries|
      ensures GoodEntry(scope, EditAll(store.entries[i], actions, draft, now), limit)
    {
      EditAllGood(scope, store.entries[i], limit, actions, draft, now);
    }
    InsertedGood(scope, store.nextId.UnwrapOr(NextNumber(store.entries)), draft, now, limit);
  }

  lemma {:induction false} WriteKeeps(codec: Codec, scope: Scope, store: Store, draft: Draft, hits: seq<Hit>,
                                      decision: Decision, now: Time)
    requires Inv(codec, scope, store) && store.nextId.UnwrapOr(1) + 1 < U64_LIMIT
    ensures var after := WriteEntry(codec, scope, store, draft, hits, decision, now).0;
            Inv(codec, scope, after) && after.nextId.UnwrapOr(1) <= store.nextId.UnwrapOr(1) + 1
  {
    hide Inv, StoredText, ValidText, Committed, HashOf, LocalDecision, Validated, ApplyActions, Select;
    var limit := store.nextId.UnwrapOr(1) + 1;
    if ValidText(draft.text) {
      var entry := DraftEntry(codec, scope, draft, now);
      TrimmedIsStored(draft.text);
      var same := FindSame(codec, store.entries, HashOf(codec, entry));
      if same < |store.entries| {
        StoredParts(codec, scope, store, same);
        UpdateOneKeeps(codec, scope, store, same, Edit(store.entries[same], Touch(""), entry, now), limit);
      } else {
        var candidates := Select(store.entries, hits);
        var actions := if decision.Local? then LocalDecision(codec, entry, candidates)
                       else if decision.ModelActions? then decision.actions else [];
        if !decision.ModelFailed? && Validated(actions, candidates) {
          CandidatesStored(store.entries, hits, actions);
          ValidatedInserts(actions, candidates);
          ApplyKeeps(codec, scope, store, entry, actions, now);
          CommittedKeeps(codec, scope, store,
                         ApplyActions(store.entries, scope, store.nextId, entry, actions, now), limit);
        }
      }
    }
  }

  lemma {:induction false} ValidatedInserts(actions: seq<Action>, candidates: seq<Candidate>)
    requires Validated(actions, candidates)
    ensures Inserts(actions) <= 1
  {
  }

  lemma {:induction false} StoredParts(codec: Codec, scope: Scope, store: Store, at: nat)
    requires Inv(codec, scope, store) && at < |store.entries|
    ensures store.entries[at].scope == scope && StoredText(store.entries[at].text)
  {
    assert GoodEntry(scope, store.entries[at], store.nextId.UnwrapOr(0));
  }

  lemma {:induction false} AccessKeeps(codec: Codec, scope: Scope, store: Store, ids: set<string>, now: Time)
    requires Inv(codec, scope, store) && store.nextId.UnwrapOr(1) < U64_LIMIT
    ensures var after := AccessEntries(codec, store, ids, now).0;
            Inv(codec, scope, after) && after.nextId.UnwrapOr(1) <= store.nextId.UnwrapOr(1)
  {
    hide OwnId, StoredText, LineBytes, Committed;
    var limit := store.nextId.UnwrapOr(1);
    var entries := MarkAccessed(store.entries, ids, now);
    GoodGrows(scope, store.entries, store.nextId.UnwrapOr(0), limit);
    forall i | 0 <= i < |entries|
      ensures GoodEntry(scope, entries[i], limit)
    {
      assert GoodEntry(scope, store.entries[i], limit);
    }
    CommittedKeeps(codec, scope, store, entries, limit);
  }

  lemma {:induction false} NoneBelowZero(codec: Codec, scope: Scope, store: Store)
    requires Inv(codec, scope, store) && store.nextId.UnwrapOr(0) == 0
    ensures store.entries == []
  {
    hide MakeId, StoredText, LineBytes;
    assert |store.entries| > 0 ==> GoodEntry(scope, store.entries[0], 0);
  }

  lemma {:induction false} FilterKeeps(codec: Codec, scope: Scope, store: Store)
    requires Inv(codec, scope, store) && store.nextId.UnwrapOr(1) < U64_LIMIT
    ensures var after := ReplaceIfSmaller(codec, store, Compact(codec, store.entries)).0;
            Inv(codec, scope, after) && after.nextId.UnwrapOr(1) <= store.nextId.UnwrapOr(1)
  {
    hide OwnId, StoredText, LineBytes, Committed, Compact, AllGood;
    CompactGood(codec, scope, store, store.nextId.UnwrapOr(1));
    CommittedKeeps(codec, scope, store, Compact(codec, store.entries), store.nextId.UnwrapOr(1));
  }

  lemma {:induction false} CompactGood(codec: Codec, scope: Scope, store: Store, limit: nat)
    requires Inv(codec, scope, store) && store.nextId.UnwrapOr(0) <= limit
    ensures var output := Compact(codec, store.entries);
            DistinctIds(output) && AllGood(scope, output, limit)
  {
    hide GoodEntry, LineBytes, HashOf, KeepFirsts;
    var output := Compact(codec, store.entries);
    KeepFirstsKeepsIds(codec, store.entries, {});
    KeepFirstsCovers(codec, store.entries, {});
    GoodGrows(scope, store.entries, store.nextId.UnwrapOr(0), limit);
    forall i | 0 <= i < |output|
      ensures GoodEntry(scope, output[i], limit)
    {
      assert output[i] in store.entries;
    }
  }

  lemma {:induction false} SafeIsGood(codec: Codec, store: Store, e: Entry, limit: nat)
    requires Inv(codec, User, store) && store.nextId.UnwrapOr(1) <= limit < U64_LIMIT
    requires SafeEntry(store.entries, e, limit)
    ensures GoodEntry(User, e, limit)
  {
    hide StoredText, MakeId, MaxNumber, LineBytes;
    var existing := FindActive(store.entries, e.id);
    if existing.Some? {
      var k :| 0 <= k < |store.entries| && store.entries[k] == existing.value;
      assert GoodEntry(User, store.entries[k], store.nextId.UnwrapOr(0));
    } else {
      var n :| MaxNumber(store.entries) < n < limit && e.id == MakeId(User, n);
      IdNumberOfMakeId(User, n);
    }
  }

  lemma {:induction false} ProposeKeeps(codec: Codec, scope: Scope, store: Store, items: seq<Proposed>,
                                        source: Source, now: Time)
    requires Inv(codec, scope, store) && store.nextId.UnwrapOr(1) + 1 + |items| < U64_LIMIT
    ensures var after := ProposeEntries(codec, scope, store, items, source, now).0;
            Inv(codec, scope, after) && after.nextId.UnwrapOr(1) <= store.nextId.UnwrapOr(1) + 1 + |items|
  {
    hide OwnId, StoredText, LineBytes, Committed, HashOf, RenderedBytes, MaxNumber, BuildFrom, SafeEntry;
    var limit := store.nextId.UnwrapOr(1) + 1 + |items|;
    if scope == User {
      GoodBelow(scope, store.entries, store.nextId.UnwrapOr(0));
      AcceptedListSafe(codec, store.entries, source, items, now);
      var built := BuildFrom(codec, store.entries, source, BuildStart(store.entries), items, now);
      if built.Ok? {
        forall i | 0 <= i < |built.value.output|
          ensures GoodEntry(User, built.value.output[i], limit)
        {
          SafeEntryGrows(store.entries, built.value.output[i], built.value.nextId, limit);
          SafeIsGood(codec, store, built.value.output[i], limit);
        }
        CommittedKeeps(codec, scope, store, built.value.output, limit);
      }
    }
  }

  /** How many numbers an operation can use up. */
  function Allocations(op: Op): nat {
    match op
    case Write(_, _, _, _) => 1
    case Propose(items, _, _) => 1 + |items|
    case _ => 0
  }

  function AllAllocations(ops: seq<Op>): nat {
    if ops == [] then 0 else Allocations(ops[0]) + AllAllocations(ops[1..])
  }

  /** Every operation, successful or not, keeps the store invariant. */
  lemma {:induction false} StepKeeps(codec: Codec, scope: Scope, store: Store, op: Op)
    requires Inv(codec, scope, store) && store.nextId.UnwrapOr(1) + Allocations(op) < U64_LIMIT
    ensures var after := Step(codec, scope, store, op).0;
            Inv(codec, scope, after) && after.nextId.UnwrapOr(1) <= store.nextId.UnwrapOr(1) + Allocations(op)
  {
    hide Inv, Committed, ValidText, Trim, ScopeOfId;
    match op {
      case Write(draft, hits, decision, now) => WriteKeeps(codec, scope, store, draft, hits, decision, now);
      case Accessed(ids, now) => AccessKeeps(codec, scope, store, ids, now);
      case Filter => FilterKeeps(codec, scope, store);
      case Propose(items, source, now) => ProposeKeeps(codec, scope, store, items, source, now);
      case Rewrite(id, text, now) =>
        var at := FindActiveId(store.entries, id);
        if ValidText(text) && at < |store.entries| {
          TrimmedIsStored(text);
          CounterPositive(codec, scope, store, at);
          StoredParts(codec, scope, store, at);
          UpdateOneKeeps(codec, scope, store, at, store.entries[at].(text := Trim(text), updatedAt := now),
                         store.nextId.UnwrapOr(1));
        }
      case Remove(id, now) =>
        var at := FindActiveId(store.entries, id);
        if at < |store.entries| {
          CounterPositive(codec, scope, store, at);
          StoredParts(codec, scope, store, at);
          UpdateOneKeeps(codec, scope, store, at, store.entries[at].(active := false, updatedAt := now),
                         store.nextId.UnwrapOr(1));
        }
    }
  }

  lemma {:induction false} CounterPositive(codec: Codec, scope: Scope, store: Store, at: nat)
    requires Inv(codec, scope, store) && at < |store.entries|
    ensures store.nextId.UnwrapOr(0) > 0 && store.nextId.UnwrapOr(0) == store.nextId.UnwrapOr(1)
  {
    assert GoodEntry(scope, store.entries[at], store.nextId.UnwrapOr(0));
  }

  lemma {:induction false} RunKeeps(codec: Codec, scope: Scope, store: Store, ops: seq<Op>)
    requires Inv(codec, scope, store) && store.nextId.UnwrapOr(1) + AllAllocations(ops) < U64_LIMIT
    ensures Inv(codec, scope, Run(codec, scope, store, ops))
    decreases |ops|
  {
    hide Inv, Step;
    if ops != [] {
      StepKeeps(codec, scope, store, ops[0]);
      RunKeeps(codec, scope, Step(codec, scope, store, ops[0]).0, ops[1..]);
    }
  }

  /** The invariant holds in every run that starts from nothing, below two to the 64 allocations. */
  lemma {:induction false} StoreInvariant(codec: Codec, scope: Scope, ops: seq<Op>)
    requires 1 + AllAllocations(ops) < U64_LIMIT
    ensures Inv(codec, scope, Run(codec, scope, EMPTY, ops))
  {
    RunKeeps(codec, scope, EMPTY, ops);
  }

  // ----- What single operations do -----

  lemma {:induction false} ActivesHold(entries: seq<Entry>, i: nat)
    requires i < |entries| && entries[i].active
    ensures entries[i] in Actives(entries)
  {
    if i > 0 {
      ActivesHold(entries[1..], i - 1);
    }
  }

  lemma {:induction false} ActivesWithout(entries: seq<Entry>, at: nat)
    requires at < |entries| && !entries[at].active
    requires forall i | 0 <= i < |entries| && i != at :: entries[i].active
    ensures Actives(entries) == entries[..at] + entries[at + 1..]
  {
    var rest := entries[1..];
    if at == 0 {
      AllActive(rest);
      assert entries[..0] + rest == rest;
    } else {
      ActivesWithout(rest, at - 1);
      ConcatAssociative([entries[0]], rest[..at - 1], rest[at..]);
      assert entries[..at] == [entries[0]] + rest[..at - 1];
      assert entries[at + 1..] == rest[at..];
    }
  }

  /** An update that succeeds changes the text and the time of the one entry with that id, and nothing else. */
  lemma {:induction false} RewriteTakesEffect(codec: Codec, scope: Scope, store: Store, id: string, text: string,
                                              now: Time)
    requires Inv(codec, scope, store)
    ensures var (after, reply) := Step(codec, scope, store, Rewrite(id, text, now));
            reply.Success? ==>
              && |after.entries| == |store.entries| && (exists i | 0 <= i < |store.entries| :: store.entries[i].id == id)
              && forall i | 0 <= i < |store.entries| ::
                   after.entries[i] == if store.entries[i].id == id
                                       then store.entries[i].(text := Trim(text), updatedAt := now)
                                       else store.entries[i]
  {
    hide AllGood, LineBytes, Trim, ScopeOfId, ValidText, NextNumber, Actives;
    var at := FindActiveId(store.entries, id);
    if at < |store.entries| {
      var entries := store.entries[at := store.entries[at].(text := Trim(text), updatedAt := now)];
      AllActive(entries);
    }
  }

  /** A delete that succeeds takes out exactly the entry with that id; the others stay in order, and none has the id. */
  lemma {:induction false} RemoveTakesEffect(codec: Codec, scope: Scope, store: Store, id: string, now: Time)
    requires Inv(codec, scope, store)
    ensures var (after, reply) := Step(codec, scope, store, Remove(id, now));
            reply.Success? ==>
              && (forall i | 0 <= i < |after.entries| :: after.entries[i].id != id)
              && exists at | 0 <= at < |store.entries| ::
                   store.entries[at].id == id && after.entries == store.entries[..at] + store.entries[at + 1..]
  {
    hide AllGood, LineBytes, ScopeOfId, NextNumber;
    var at := FindActiveId(store.entries, id);
    if at < |store.entries| {
      ActivesWithout(store.entries[at := store.entries[at].(active := false, updatedAt := now)], at);
    }
  }

  /** A search changes the access times of the entries it returned and nothing else about any entry. */
  lemma {:induction false} AccessTakesEffect(codec: Codec, scope: Scope, store: Store, ids: set<string>, now: Time)
    requires Inv(codec, scope, store)
    ensures var (after, reply) := Step(codec, scope, store, Accessed(ids, now));
            reply.Success? ==>
              && |after.entries| == |store.entries|
              && forall i | 0 <= i < |store.entries| ::
                   after.entries[i] == if store.entries[i].id in ids
                                       then store.entries[i].(lastAccessedAt := Some(now))
                                       else store.entries[i]
  {
    hide AllGood, LineBytes, NextNumber, DistinctIds, Actives;
    AllActive(store.entries);
    AllActive(MarkAccessed(store.entries, ids, now));
  }

  predicate DistinctHits(hits: seq<Hit>) {
    forall i, j | 0 <= i < j < |hits| :: hits[i].index != hits[j].index
  }

  lemma {:induction false} SelectDistinct(entries: seq<Entry>, hits: seq<Hit>)
    requires DistinctIds(entries) && DistinctHits(hits)
    ensures DistinctCandidates(Select(entries, hits))
  {
    if hits != [] {
      var rest := hits[1..];
      assert DistinctHits(rest) by {
        assert forall i | 0 <= i < |rest| :: rest[i] == hits[i + 1];
      }
      SelectDistinct(entries, rest);
      if hits[0].index < |entries| {
        assert forall i | 0 <= i < |rest| :: rest[i].index != hits[0].index;
        SelectSkips(entries, rest, hits[0].index);
      }
    }
  }

  lemma {:induction false} SelectSkips(entries: seq<Entry>, hits: seq<Hit>, index: nat)
    requires DistinctIds(entries) && index < |entries|
    requires forall i | 0 <= i < |hits| :: hits[i].index != index
    ensures Absent(entries[index].id, Select(entries, hits))
  {
    if hits != [] {
      var rest := hits[1..];
      assert forall i | 0 <= i < |rest| :: rest[i] == hits[i + 1];
      SelectSkips(entries, rest, index);
    }
  }

  /** No candidate of the draft's subject, and a best candidate that scores at least 0.9. */
  predicate Absorbed(codec: Codec, draft: Entry, candidates: seq<Candidate>) {
    Rivals(codec, draft, candidates) == [] && candidates != [] && candidates[0].score >= 0.9
  }

  predicate Records(codec: Codec, e: Entry, draft: Entry, now: Time) {
    e.updatedAt == now
    && (codec.normalize(e.text) == codec.normalize(draft.text) || HashOf(codec, e) == HashOf(codec, draft))
  }

  ghost predicate SomeRecords(codec: Codec, entries: seq<Entry>, draft: Entry, now: Time) {
    exists e | e in entries :: Records(codec, e, draft, now)
  }

  /**
   A local write that succeeds leaves an entry with the draft's text, up to normalisation and hashing, unless a
   candidate scoring at least 0.9 absorbed it.
   */
  lemma {:induction false} LocalWriteTakesEffect(codec: Codec, scope: Scope, store: Store, draft: Draft,
                                                 hits: seq<Hit>, now: Time)
    requires Inv(codec, scope, store) && DistinctHits(hits)
    ensures var (after, reply) := Step(codec, scope, store, Write(draft, hits, Local, now));
            var entry := DraftEntry(codec, scope, draft, now);
            reply.Success? && !Absorbed(codec, entry, Select(store.entries, hits))
            ==> SomeRecords(codec, after.entries, entry, now)
  {
    hide AllGood, LineBytes, ValidText, Trim, HashOf, LocalDecision, Validated, ApplyActions, Select, NextNumber,
         SomeRecords, CleanSubject, CleanTags;
    if ValidText(draft.text) {
      var entry := DraftEntry(codec, scope, draft, now);
      var same := FindSame(codec, store.entries, HashOf(codec, entry));
      if same < |store.entries| {
        var touched := Edit(store.entries[same], Touch(""), entry, now);
        TouchKeepsHash(codec, store.entries[same], entry, now);
        SavedRecords(codec, store.entries[same := touched], same, entry, now);
      } else {
        var candidates := Select(store.entries, hits);
        SelectDistinct(store.entries, hits);
        TrimmedIsStored(draft.text);
        if !Absorbed(codec, entry, candidates) {
          LocalActionsRecord(codec, store.entries, scope, store.nextId, entry, candidates, now);
        }
      }
    }
  }

  lemma {:induction false} TouchKeepsHash(codec: Codec, e: Entry, draft: Entry, now: Time)
    ensures HashOf(codec, Edit(e, Touch(""), draft, now)) == HashOf(codec, e)
  {
  }

  lemma {:induction false} SavedRecords(codec: Codec, entries: seq<Entry>, at: nat, draft: Entry, now: Time)
    requires at < |entries| && entries[at].active && Records(codec, entries[at], draft, now)
    ensures SomeRecords(codec, Actives(entries), draft, now)
  {
    ActivesHold(entries, at);
  }

  lemma {:induction false} SingleAction(entries: seq<Entry>, scope: Scope, manifest: Option<nat>, draft: Entry,
                                        a: Action, now: Time)
    ensures ApplyActions(entries, scope, manifest, draft, [a], now)
         == ApplyAction(entries, scope, manifest, draft, a, now)
  {
    assert [a][..0] == [];
  }

  lemma {:induction false} LocalActionsRecord(codec: Codec, entries: seq<Entry>, scope: Scope, manifest: Option<nat>,
                                              draft: Entry,
                           candidates: seq<Candidate>, now: Time)
    requires DistinctIds(entries) && forall i | 0 <= i < |entries| :: entries[i].active
    requires DistinctCandidates(candidates) && forall i | 0 <= i < |candidates| :: candidates[i].entry in entries
    requires StoredText(draft.text) && draft.active && !Absorbed(codec, draft, candidates)
    ensures SomeRecords(codec, Actives(ApplyActions(entries, scope, manifest, draft,
                                                    LocalDecision(codec, draft, candidates), now)), draft, now)
  {
    hide StoredText, HashOf, SomeRecords, SameSubjects, NewestFirst, NextNumber, Trim, FindEntry, Actives,
         DistinctCandidates, DistinctIds, SortedByTime;
    var actions := LocalDecision(codec, draft, candidates);
    var after := ApplyActions(entries, scope, manifest, draft, actions, now);
    var rivals := Rivals(codec, draft, candidates);
    TrimStored(draft.text);
    SameSorted(codec, draft, candidates);
    RivalsStored(entries, candidates, rivals);
    if Differs(codec, draft, candidates) {
      OneSurvivorRecords(codec, entries, scope, manifest, draft, candidates, now);
    } else {
      var at := if actions[0].Insert? then |entries| else FindEntry(entries, actions[0].id);
      SingleAction(entries, scope, manifest, draft, actions[0], now);
      if rivals == [] && candidates != [] {
        TargetFound(entries, candidates[0]);
      } else if rivals != [] {
        assert rivals[0] in candidates;
        TargetFound(entries, rivals[0]);
      }
      SavedRecords(codec, after, at, draft, now);
    }
  }

  lemma {:induction false} TargetFound(entries: seq<Entry>, c: Candidate)
    requires DistinctIds(entries) && c.entry in entries
    ensures var at := FindEntry(entries, c.entry.id);
            at < |entries| && entries[at] == c.entry
  {
    var k :| 0 <= k < |entries| && entries[k] == c.entry;
    assert entries[k].id == c.entry.id;
  }

  lemma {:induction false} OneSurvivorRecords(codec: Codec, entries: seq<Entry>, scope: Scope, manifest: Option<nat>,
                                              draft: Entry,
                           candidates: seq<Candidate>, now: Time)
    requires DistinctIds(entries) && forall i | 0 <= i < |entries| :: entries[i].active
    requires DistinctCandidates(candidates) && forall i | 0 <= i < |candidates| :: candidates[i].entry in entries
    requires StoredText(draft.text) && Differs(codec, draft, candidates)
    ensures SomeRecords(codec, Actives(ApplyActions(entries, scope, manifest, draft,
                                                    LocalDecision(codec, draft, candidates), now)), draft, now)
  {
    hide StoredText, HashOf, SomeRecords, SameSubjects, NewestFirst, LocalDecision, ApplyActions;
    var rivals := Rivals(codec, draft, candidates);
    SameSorted(codec, draft, candidates);
    assert rivals[0] in candidates;
    TargetFound(entries, rivals[0]);
    OneSurvivor(codec, entries, scope, manifest, draft, candidates, now);
    var after := ApplyActions(entries, scope, manifest, draft, LocalDecision(codec, draft, candidates), now);
    SavedRecords(codec, after, FindEntry(entries, rivals[0].entry.id), draft, now);
  }

  /** The draft's text is in the store, up to normalisation and hashing. */
  predicate Says(codec: Codec, e: Entry, draft: Entry) {
    codec.normalize(e.text) == codec.normalize(draft.text) || HashOf(codec, e) == HashOf(codec, draft)
  }

  ghost predicate SomeSays(codec: Codec, entries: seq<Entry>, draft: Entry) {
    exists e | e in entries :: Says(codec, e, draft)
  }

  /**
   What an absorbed write leaves: the best candidate's two times are renewed, everything else is as it was, and the
   draft's text is gone.
   */
  lemma {:induction false} AbsorbedWrite(codec: Codec, scope: Scope, store: Store, draft: Draft, hits: seq<Hit>,
                                         now: Time)
    requires Inv(codec, scope, store)
    ensures var (after, reply) := Step(codec, scope, store, Write(draft, hits, Local, now));
            var entry, candidates := DraftEntry(codec, scope, draft, now), Select(store.entries, hits);
            reply.Success? && Absorbed(codec, entry, candidates)
            && (forall i | 0 <= i < |store.entries| :: HashOf(codec, store.entries[i]) != HashOf(codec, entry)) ==>
              && |after.entries| == |store.entries|
              && forall i | 0 <= i < |store.entries| ::
                   after.entries[i] == if store.entries[i].id == candidates[0].entry.id
                                       then store.entries[i].(updatedAt := now, lastAccessedAt := Some(now))
                                       else store.entries[i]
  {
    hide AllGood, LineBytes, ValidText, Trim, HashOf, Validated, Select, NextNumber, CleanSubject, CleanTags,
         ApplyActions, SameSubjects, NewestFirst;
    var entry, candidates := DraftEntry(codec, scope, draft, now), Select(store.entries, hits);
    if Absorbed(codec, entry, candidates) {
      var touch := Touch(candidates[0].entry.id);
      assert LocalDecision(codec, entry, candidates) == [touch];
      SingleAction(store.entries, scope, store.nextId, entry, touch, now);
      TargetFound(store.entries, candidates[0]);
      var at := FindEntry(store.entries, touch.id);
      AllActive(store.entries[at := Edit(store.entries[at], touch, entry, now)]);
    }
  }

  /** A successful local write loses the draft's text exactly when it is absorbed and no stored entry had the text. */
  lemma {:induction false} LocalWriteExactly(codec: Codec, scope: Scope, store: Store, draft: Draft, hits: seq<Hit>,
                                             now: Time)
    requires Inv(codec, scope, store) && DistinctHits(hits)
    ensures var (after, reply) := Step(codec, scope, store, Write(draft, hits, Local, now));
            var entry := DraftEntry(codec, scope, draft, now);
            reply.Success? ==>
              (SomeSays(codec, after.entries, entry)
               <==> !Absorbed(codec, entry, Select(store.entries, hits)) || SomeSays(codec, store.entries, entry))
  {
    hide Inv, Step, HashOf, Absorbed, DraftEntry, Select;
    var op := Write(draft, hits, Local, now);
    var (after, reply) := Step(codec, scope, store, op);
    var entry := DraftEntry(codec, scope, draft, now);
    if reply.Success? {
      if !Absorbed(codec, entry, Select(store.entries, hits)) {
        LocalWriteTakesEffect(codec, scope, store, draft, hits, now);
      } else if exists i | 0 <= i < |store.entries| :: HashOf(codec, store.entries[i]) == HashOf(codec, entry) {
        var i :| 0 <= i < |store.entries| && HashOf(codec, store.entries[i]) == HashOf(codec, entry);
        assert Says(codec, store.entries[i], entry);
        RepeatedWrite(codec, scope, store, draft, hits, now, i);
      } else {
        AbsorbedWrite(codec, scope, store, draft, hits, now);
        SameSaying(codec, store.entries, after.entries, entry);
      }
    }
  }

  /** A draft whose hash is stored stays stored. */
  lemma {:induction false} RepeatedWrite(codec: Codec, scope: Scope, store: Store, draft: Draft, hits: seq<Hit>,
                                         now: Time, i: nat)
    requires Inv(codec, scope, store) && i < |store.entries|
    requires HashOf(codec, store.entries[i]) == HashOf(codec, DraftEntry(codec, scope, draft, now))
    ensures var (after, reply) := Step(codec, scope, store, Write(draft, hits, Local, now));
            reply.Success? ==> SomeSays(codec, after.entries, DraftEntry(codec, scope, draft, now))
  {
    hide AllGood, LineBytes, ValidText, Trim, HashOf, Validated, Select, NextNumber, CleanSubject, CleanTags,
         ApplyActions, LocalDecision, Actives;
    var entry := DraftEntry(codec, scope, draft, now);
    var same := FindSame(codec, store.entries, HashOf(codec, entry));
    TouchKeepsHash(codec, store.entries[same], entry, now);
    var list := store.entries[same := Edit(store.entries[same], Touch(""), entry, now)];
    ActivesHold(list, same);
    assert Says(codec, list[same], entry);
  }

  lemma {:induction false} SameSaying(codec: Codec, before: seq<Entry>, after: seq<Entry>, draft: Entry)
    requires |after| == |before|
    requires forall i | 0 <= i < |before| ::
               after[i].text == before[i].text && after[i].subject == before[i].subject && after[i].tags == before[i].tags
    ensures SomeSays(codec, after, draft) <==> SomeSays(codec, before, draft)
  {
    hide ContentHash;
    forall i | 0 <= i < |before|
      ensures Says(codec, after[i], draft) <==> Says(codec, before[i], draft)
    {
    }
    if SomeSays(codec, after, draft) {
      var e :| e in after && Says(codec, e, draft);
      var i :| 0 <= i < |after| && after[i] == e;
      assert Says(codec, before[i], draft);
    }
    if SomeSays(codec, before, draft) {
      var e :| e in before && Says(codec, e, draft);
      var i :| 0 <= i < |before| && before[i] == e;
      assert Says(codec, after[i], draft);
    }
  }
}
