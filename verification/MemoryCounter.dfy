/** Which id numbers a save puts in reach: the counter comes from the list that is saved, not from history. */
module MemoryCounter {
  import opened Wrappers
  import opened Text
  import opened MemoryEntries
  import opened MemoryConsistency
  import opened MemoryCompaction
  import opened MemoryStore

  /** Some entry is numbered `n` or above. */
  predicate Reaches(entries: seq<Entry>, n: nat) {
    exists i | 0 <= i < |entries| :: IdNumber(entries[i].id).Some? && IdNumber(entries[i].id).value >= n
  }

  lemma {:induction false} MaximumIsReached(entries: seq<Entry>, n: nat)
    requires 0 < n
    ensures MaxNumber(entries) >= n <==> Reaches(entries, n)
    decreases |entries|
  {
    hide IdNumber;
    if entries != [] {
      var rest := entries[..|entries| - 1];
      MaximumIsReached(rest, n);
      assert forall i | 0 <= i < |rest| :: rest[i] == entries[i];
      if Reaches(rest, n) {
        var i :| 0 <= i < |rest| && IdNumber(rest[i].id).Some? && IdNumber(rest[i].id).value >= n;
        assert entries[i] == rest[i];
      }
    }
  }

  /** Everything saves but a search that returned nothing of this scope. */
  predicate Saves(store: Store, op: Op) {
    op.Accessed? ==> exists i | 0 <= i < |store.entries| :: store.entries[i].id in op.ids
  }

  /** Operations that hand over the stored entries, edited, with at most one more. */
  predicate KeepsEntries(op: Op) {
    !op.Filter? && !op.Propose?
  }

  /** The counter written with a list is above a number exactly when the list reaches it. */
  lemma {:induction false} CounterOf(codec: Codec, list: seq<Entry>, saved: Store, n: nat)
    requires Save(codec, list) == Ok(saved) && saved.nextId != Some(0) && 0 < n
    ensures saved.entries == Actives(list) && saved.nextId.Some?
    ensures saved.nextId.value <= n <==> !Reaches(list, n)
  {
    hide Reaches, LineBytes;
    MaximumIsReached(list, n);
  }

  /** The list holds the stored entries under their ids; what it has besides is active. */
  predicate Extends(before: seq<Entry>, list: seq<Entry>) {
    && |before| <= |list|
    && (forall i | 0 <= i < |before| :: list[i].id == before[i].id)
    && (forall i | |before| <= i < |list| :: list[i].active)
  }

  lemma {:induction false} ExtendedReach(before: seq<Entry>, list: seq<Entry>, n: nat)
    requires Extends(before, list)
    ensures Reaches(list, n) <==> Reaches(Actives(list), n) || Reaches(before, n)
  {
    hide IdNumber;
    if Reaches(list, n) {
      var i :| 0 <= i < |list| && IdNumber(list[i].id).Some? && IdNumber(list[i].id).value >= n;
      if i < |before| {
        assert before[i].id == list[i].id;
      } else {
        ActivesHold(list, i);
        var k :| 0 <= k < |Actives(list)| && Actives(list)[k] == list[i];
      }
    }
    if Reaches(Actives(list), n) {
      var k :| 0 <= k < |Actives(list)| && IdNumber(Actives(list)[k].id).Some? && IdNumber(Actives(list)[k].id).value >= n;
      var i :| 0 <= i < |list| && list[i] == Actives(list)[k];
    }
    if Reaches(before, n) {
      var i :| 0 <= i < |before| && IdNumber(before[i].id).Some? && IdNumber(before[i].id).value >= n;
      assert list[i].id == before[i].id;
    }
  }

  lemma {:induction false} ExtendedCounter(codec: Codec, before: Store, list: seq<Entry>, saved: Store, n: nat)
    requires Save(codec, list) == Ok(saved) && saved.nextId != Some(0) && 0 < n && Extends(before.entries, list)
    ensures saved.nextId.Some?
    ensures saved.nextId.value <= n <==> !Reaches(saved.entries, n) && !Reaches(before.entries, n)
  {
    hide Save, Reaches, Extends;
    CounterOf(codec, list, saved, n);
    ExtendedReach(before.entries, list, n);
  }

  lemma {:induction false} ReplacedCounter(codec: Codec, list: seq<Entry>, saved: Store, n: nat)
    requires Save(codec, list) == Ok(saved) && saved.nextId != Some(0) && 0 < n
    requires forall i | 0 <= i < |list| :: list[i].active
    ensures saved.nextId.Some?
    ensures saved.nextId.value <= n <==> !Reaches(saved.entries, n)
  {
    hide Save, Reaches;
    CounterOf(codec, list, saved, n);
    AllActive(list);
  }

  /** The list a successful write saves. */
  lemma {:induction false} WrittenList(codec: Codec, scope: Scope, store: Store, draft: Draft, hits: seq<Hit>,
                                       decision: Decision, now: Time)
    returns (list: seq<Entry>)
    requires Inv(codec, scope, store)
    ensures var (after, reply) := WriteEntry(codec, scope, store, draft, hits, decision, now);
            reply.Success? ==> Save(codec, list) == Ok(after) && Extends(store.entries, list)
  {
    hide Inv, HashOf, LocalDecision, Validated, Select, Save, ValidText, ApplyActions, Trim, CleanSubject, CleanTags;
    var entry := DraftEntry(codec, scope, draft, now);
    var same := FindSame(codec, store.entries, HashOf(codec, entry));
    if same < |store.entries| {
      list := store.entries[same := Edit(store.entries[same], Touch(""), entry, now)];
    } else {
      var candidates := Select(store.entries, hits);
      var actions := if decision.ModelActions? then decision.actions else LocalDecision(codec, entry, candidates);
      list := ApplyActions(store.entries, scope, store.nextId, entry, actions, now);
      if Validated(actions, candidates) {
        CandidatesStored(store.entries, hits, actions);
        ValidatedInserts(actions, candidates);
        StoredDistinct(codec, scope, store);
        AppliedEntries(store.entries, scope, store.nextId, entry, actions, now);
        AppliedExtends(store, scope, entry, actions, now);
      }
    }
  }

  lemma {:induction false} StoredDistinct(codec: Codec, scope: Scope, store: Store)
    requires Inv(codec, scope, store)
    ensures DistinctIds(store.entries)
  {
  }

  lemma {:induction false} AppliedExtends(store: Store, scope: Scope, draft: Entry, actions: seq<Action>, now: Time)
    requires draft.active
    ensures Extends(store.entries, EditEach(store.entries, actions, draft, now)
                                   + NewEntries(store.entries, scope, store.nextId, draft, actions, now))
  {
    hide EditEach, MakeId, NextNumber;
  }

  /**
   Numbers are not kept for ever: every save computes the counter anew. A number n is at or above the new counter, so
   in reach of coming insertions, exactly when no saved entry is numbered n or above and, unless a compaction
   replaced the list, none was before the operation.
   */
  lemma {:induction false} DeletedNumberReturns(codec: Codec, scope: Scope, store: Store, op: Op, n: nat)
    requires Inv(codec, scope, store) && store.nextId.UnwrapOr(1) + Allocations(op) < U64_LIMIT && 0 < n
    ensures var (after, reply) := Step(codec, scope, store, op);
            reply.Success? && Saves(store, op) ==>
              && after.nextId.Some?
              && (after.nextId.value <= n
                  <==> !Reaches(after.entries, n) && (KeepsEntries(op) ==> !Reaches(store.entries, n)))
  {
    hide Inv, Reaches, Save, ValidText, ScopeOfId, Trim, Compact, BuildFrom, RenderedBytes, WriteEntry, Extends;
    var (after, reply) := Step(codec, scope, store, op);
    CounterNotZero(codec, scope, store, op);
    if reply.Success? && Saves(store, op) {
      match op {
        case Write(draft, hits, decision, now) =>
          var list := WrittenList(codec, scope, store, draft, hits, decision, now);
          ExtendedCounter(codec, store, list, after, n);
        case Rewrite(id, text, now) =>
          var at := FindActiveId(store.entries, id);
          var list := store.entries[at := store.entries[at].(text := Trim(text), updatedAt := now)];
          SameIdsExtend(store.entries, list);
          ExtendedCounter(codec, store, list, after, n);
        case Remove(id, now) =>
          var at := FindActiveId(store.entries, id);
          var list := store.entries[at := store.entries[at].(active := false, updatedAt := now)];
          SameIdsExtend(store.entries, list);
          ExtendedCounter(codec, store, list, after, n);
        case Accessed(ids, now) =>
          var list := MarkAccessed(store.entries, ids, now);
          SameIdsExtend(store.entries, list);
          ExtendedCounter(codec, store, list, after, n);
        case Filter =>
          FilteredActive(codec, store.entries);
          ReplacedCounter(codec, Compact(codec, store.entries), after, n);
        case Propose(items, source, now) =>
          ProposedCounter(codec, scope, store, items, source, now, n);
      }
    }
  }

  lemma {:induction false} CounterNotZero(codec: Codec, scope: Scope, store: Store, op: Op)
    requires Inv(codec, scope, store) && store.nextId.UnwrapOr(1) + Allocations(op) < U64_LIMIT
    ensures Step(codec, scope, store, op).0.nextId != Some(0)
  {
    hide Step;
    StepKeeps(codec, scope, store, op);
  }

  lemma {:induction false} SameIdsExtend(before: seq<Entry>, list: seq<Entry>)
    requires |list| == |before| && forall i | 0 <= i < |list| :: list[i].id == before[i].id
    ensures Extends(before, list)
  {
  }

  lemma {:induction false} FilteredActive(codec: Codec, entries: seq<Entry>)
    ensures forall i | 0 <= i < |Compact(codec, entries)| :: Compact(codec, entries)[i].active
  {
    hide KeepFirsts;
    KeepFirstsCovers(codec, entries, {});
  }

  lemma {:induction false} ProposedCounter(codec: Codec, scope: Scope, store: Store, items: seq<Proposed>,
                                           source: Source, now: Time, n: nat)
    requires Inv(codec, scope, store) && store.nextId.UnwrapOr(1) + 1 + |items| < U64_LIMIT && 0 < n
    ensures var (after, reply) := ProposeEntries(codec, scope, store, items, source, now);
            reply.Success? ==> after.nextId.Some? && (after.nextId.value <= n <==> !Reaches(after.entries, n))
  {
    hide Reaches, Save, RenderedBytes, BuildFrom, SafeEntry, MaxNumber, LineBytes, GoodEntry, DistinctIds;
    var op := Propose(items, source, now);
    var (after, reply) := ProposeEntries(codec, scope, store, items, source, now);
    CounterNotZero(codec, scope, store, op);
    if reply.Success? {
      GoodBelow(scope, store.entries, store.nextId.UnwrapOr(0));
      AcceptedListSafe(codec, store.entries, source, items, now);
      var built := BuildFrom(codec, store.entries, source, BuildStart(store.entries), items, now).value;
      forall i | 0 <= i < |built.output|
        ensures built.output[i].active
      {
        SafeIsActive(store.entries, built.output[i], built.nextId);
      }
      ReplacedCounter(codec, built.output, after, n);
    }
  }

  lemma {:induction false} SafeIsActive(entries: seq<Entry>, e: Entry, limit: nat)
    requires SafeEntry(entries, e, limit)
    ensures e.active
  {
  }
}
