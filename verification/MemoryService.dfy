/** The memory files of a scope as mutable objects, with the user scope's compaction status beside them. */
module MemoryService {
  import opened Wrappers
  import opened Text
  import opened MemoryEntries
  import opened MemoryConsistency
  import opened MemoryCompaction
  import opened MemoryStore
  import opened CompactionStatus
  import Runs = CompactionRuns

  /** The lines to write: the active entries, and how many bytes they take. */
  method ActiveLines(codec: Codec, list: seq<Entry>) returns (kept: seq<Entry>, bytes: nat)
    ensures kept == Actives(list) && bytes == LineBytes(codec, kept)
  {
    kept, bytes := [], 0;
    var i := 0;
    while i < |list|
      invariant 0 <= i <= |list|
      invariant kept == Actives(list[..i]) && bytes == LineBytes(codec, kept)
    {
      assert list[..i + 1] == list[..i] + [list[i]];
      ActivesConcat(list[..i], [list[i]]);
      assert Actives([list[i]]) == if list[i].active then [list[i]] else [];
      if list[i].active {
        LineBytesAppend(codec, kept, list[i]);
        bytes := bytes + codec.line(list[i]);
        kept := kept + [list[i]];
      }
      i := i + 1;
    }
    assert list[..i] == list;
  }

  lemma {:induction false} LineBytesAppend(codec: Codec, entries: seq<Entry>, e: Entry)
    ensures LineBytes(codec, entries + [e]) == LineBytes(codec, entries) + codec.line(e)
  {
    if entries == [] {
      assert entries + [e] == [e];
    } else {
      LineBytesAppend(codec, entries[1..], e);
      assert (entries + [e])[1..] == entries[1..] + [e];
    }
  }

  class MemoryFiles {
    const scope: Scope
    var entries: seq<Entry>
    var nextId: Option<nat>

    constructor (scope: Scope)
      ensures this.scope == scope && View() == EMPTY
    {
      this.scope := scope;
      entries, nextId := [], None;
    }

    function View(): Store
      reads this
    {
      Store(entries, nextId)
    }

    /** `write_entries_and_manifest`: nothing changes unless both limits hold. */
    method SaveEntries(codec: Codec, list: seq<Entry>) returns (reply: Reply)
      modifies this
      ensures (View(), reply) == Committed(codec, old(View()), list)
    {
      hide NextNumber, LineBytes, Actives;
      var kept, bytes := ActiveLines(codec, list);
      if |kept| > MAX_ENTRIES {
        return Rejected("memory_store_entry_limit");
      }
      if bytes > MAX_STORE_BYTES {
        return Rejected("memory_store_too_large");
      }
      entries, nextId := kept, Some(NextNumber(list));
      reply := Success;
    }

    method Write(codec: Codec, draft: Draft, hits: seq<Hit>, decision: Decision, now: Time) returns (reply: Reply)
      modifies this
      ensures (View(), reply) == Step(codec, scope, old(View()), MemoryStore.Write(draft, hits, decision, now))
      ensures !reply.Success? ==> View() == old(View())
    {
      hide ValidText, ApplyActions, Validated, LocalDecision, HashOf, Select, Save;
      if !ValidText(draft.text) {
        return Rejected("invalid text");
      }
      var entry := DraftEntry(codec, scope, draft, now);
      var same := FindSame(codec, entries, HashOf(codec, entry));
      if same < |entries| {
        reply := SaveEntries(codec, entries[same := entries[same].(updatedAt := now, lastAccessedAt := Some(now))]);
        return;
      }
      var candidates := Select(entries, hits);
      var actions := [];
      match decision {
        case Local => actions := LocalDecision(codec, entry, candidates);
        case ModelFailed(reason) => return Failure(reason);
        case ModelActions(proposed) => actions := proposed;
      }
      if !Validated(actions, candidates) {
        return Rejected("invalid_action");
      }
      var edited := ApplyInPlace(entries, scope, nextId, entry, actions, now);
      reply := SaveEntries(codec, edited);
    }

    method Update(codec: Codec, id: string, text: string, now: Time) returns (reply: Reply)
      modifies this
      ensures (View(), reply) == Step(codec, scope, old(View()), Rewrite(id, text, now))
      ensures !reply.Success? ==> View() == old(View())
    {
      hide ValidText, Save;
      if !ValidText(text) {
        return Rejected("invalid text");
      }
      if ScopeOfId(id).None? {
        return Rejected("invalid memory id");
      }
      var at := FindActiveId(entries, id);
      if at == |entries| {
        return Failure("memory_not_found");
      }
      reply := SaveEntries(codec, entries[at := entries[at].(text := Trim(text), updatedAt := now)]);
    }

    method Delete(codec: Codec, id: string, now: Time) returns (reply: Reply)
      modifies this
      ensures (View(), reply) == Step(codec, scope, old(View()), Remove(id, now))
      ensures !reply.Success? ==> View() == old(View())
    {
      hide Save;
      if ScopeOfId(id).None? {
        return Rejected("invalid memory id");
      }
      var at := FindActiveId(entries, id);
      if at == |entries| {
        return Failure("memory_not_found");
      }
      reply := SaveEntries(codec, entries[at := entries[at].(active := false, updatedAt := now)]);
    }

    /** A search may change the access times of what it returned, and nothing else. */
    method MarkReturned(codec: Codec, ids: set<string>, now: Time) returns (reply: Reply)
      modifies this
      ensures (View(), reply) == Step(codec, scope, old(View()), Accessed(ids, now))
    {
      hide Save;
      var marked, changed := [], false;
      var i := 0;
      while i < |entries|
        invariant 0 <= i <= |entries| && |marked| == i && View() == old(View())
        invariant marked == MarkAccessed(entries[..i], ids, now)
        invariant changed <==> exists j | 0 <= j < i :: entries[j].id in ids
      {
        var hit := entries[i].id in ids;
        marked := marked + [if hit then entries[i].(lastAccessedAt := Some(now)) else entries[i]];
        changed := changed || hit;
        i := i + 1;
      }
      assert entries[..i] == entries;
      if !changed {
        return Success;
      }
      reply := SaveEntries(codec, marked);
    }
  }

  /** The user scope: its files and its compaction status. */
  class UserMemory {
    const files: MemoryFiles
    var status: Status

    constructor (files: MemoryFiles, status: Status)
      ensures this.files == files && this.status == status
    {
      this.files := files;
      this.status := status;
    }

    function View(): Memory
      reads this, files
    {
      Memory(files.View(), status)
    }

    method RefreshStatus(o: Options, now: Time)
      modifies this
      ensures View() == old(View()).(status := Refresh(old(status), files.entries, o, now))
    {
      hide RenderedBytes;
      var size := Size(files.entries);
      var threshold := status.override.UnwrapOr(o.hard);
      status := status.(lastInputHash := o.render(Actives(files.entries)), updatedAt := now);
      if status.state == RetryWaiting && size >= threshold && status.nextRetryAt.Some? && status.nextRetryAt.value > now {
        return;
      }
      if size >= threshold {
        if status.state != Running {
          status := status.(state := HardPending);
        }
      } else if size >= o.soft {
        if status.state != Running {
          status := status.(state := Dirty);
        }
      } else if status.state != Running {
        status := status.(state := Idle, attempts := 0, lastError := None, nextRetryAt := None, override := None);
      }
    }

    /** One answer of the model: an error, no gain, or new entries and a fresh status. */
    method RunModel(codec: Codec, o: Options, answer: Answer, now: Time) returns (outcome: Outcome)
      modifies this, files
      ensures outcome == AskModel(codec, old(View()), o, answer, now)
      ensures View() == if outcome.Shrunk? then outcome.memory else old(View())
    {
      hide RenderedBytes, BuildFrom;
      match answer {
        case ProviderError(message) =>
          return Broken(message);
        case ProposedList(items, source) =>
          var built := BuildEntries(codec, files.entries, source, items, now);
          if built.Err? {
            return Broken(built.error);
          }
          var input, output := Size(files.entries), Size(built.value.output);
          if output >= input {
            return NoShrink(input, output);
          }
          var reply := files.SaveEntries(codec, built.value.output);
          if reply.Rejected? {
            return Broken(reply.error);
          }
          status := AfterSuccess(status, o, built.value.output, now);
          outcome := Shrunk(Memory(files.View(), status));
      }
    }

    method RunHardIfPending(codec: Codec, o: Options, answer: Answer, now: Time)
      modifies this, files
      ensures View() == HardPass(codec, old(View()), o, answer, now)
    {
      hide RenderedBytes, KeepFirsts, AskModel, NextNumber, LineBytes;
      if status.state != HardPending {
        return;
      }
      if o.hasModel {
        var outcome := RunModel(codec, o, answer, now);
        match outcome {
          case Shrunk(_) =>
          case NoShrink(input, output) => status := AfterNoShrink(status, o, input, output, now);
          case Broken(message) => status := AfterFailure(status, o, message, now);
        }
        return;
      }
      for round := 0 to 2
        invariant round == 0 ==> View() == old(View())
        invariant round > 0 ==> View() == FilterOnce(codec, old(View()), o, now)
        invariant round > 0 ==> Size(Compact(codec, old(files.entries))) >= Size(old(files.entries))
        invariant round > 0 ==> status.state == HardPending
        invariant round > 1 ==> View() == HardPass(codec, old(View()), o, answer, now)
      {
        var again := FilterRound(codec, o, now);
        if !again {
          return;
        }
        assert round == 1 ==> View() == HardPass(codec, old(View()), o, answer, now);
      }
    }

    /** One round of the local filter; says whether the loop goes on. */
    method FilterRound(codec: Codec, o: Options, now: Time) returns (again: bool)
      modifies this, files
      ensures View() == FilterOnce(codec, old(View()), o, now)
      ensures again <==> Size(Compact(codec, old(files.entries))) >= Size(old(files.entries)) && status.state == HardPending
    {
      hide RenderedBytes, KeepFirsts, LineBytes;
      var input := Size(files.entries);
      var compacted := CompactLoop(codec, files.entries);
      var output := Size(compacted);
      if output < input {
        var reply := files.SaveEntries(codec, compacted);
        if reply.Success? {
          status := AfterSuccess(status, o, compacted, now);
        }
        return false;
      }
      status := AfterNoShrink(status, o, input, output, now);
      again := status.state == HardPending;
    }

    /** `write` on the user scope: the change, then the refresh and hard compaction when it succeeded. */
    method Write(codec: Codec, o: Options, draft: Draft, hits: seq<Hit>, decision: Decision, now: Time, hard: Answer,
                 at: Time) returns (reply: Reply)
      requires files.scope == User
      modifies this, files
      ensures reply == Step(codec, User, old(files.View()), MemoryStore.Write(draft, hits, decision, now)).1
      ensures View() == Runs.Do(codec, old(View()), o, Runs.Change(MemoryStore.Write(draft, hits, decision, now), hard, at))
    {
      hide Step, Refresh, HardPass;
      reply := files.Write(codec, draft, hits, decision, now);
      if reply.Success? {
        RefreshStatus(o, at);
        RunHardIfPending(codec, o, hard, at);
      }
    }

    /** `update` on the user scope. */
    method Update(codec: Codec, o: Options, id: string, text: string, now: Time, hard: Answer, at: Time)
      returns (reply: Reply)
      requires files.scope == User
      modifies this, files
      ensures reply == Step(codec, User, old(files.View()), Rewrite(id, text, now)).1
      ensures View() == Runs.Do(codec, old(View()), o, Runs.Change(Rewrite(id, text, now), hard, at))
    {
      hide Step, Refresh, HardPass;
      reply := files.Update(codec, id, text, now);
      if reply.Success? {
        RefreshStatus(o, at);
        RunHardIfPending(codec, o, hard, at);
      }
    }

    /** `delete` on the user scope. */
    method Delete(codec: Codec, o: Options, id: string, now: Time, hard: Answer, at: Time) returns (reply: Reply)
      requires files.scope == User
      modifies this, files
      ensures reply == Step(codec, User, old(files.View()), Remove(id, now)).1
      ensures View() == Runs.Do(codec, old(View()), o, Runs.Change(Remove(id, now), hard, at))
    {
      hide Step, Refresh, HardPass;
      reply := files.Delete(codec, id, now);
      if reply.Success? {
        RefreshStatus(o, at);
        RunHardIfPending(codec, o, hard, at);
      }
    }

    /** `maintain_user_memory`. */
    method MaintainMemory(codec: Codec, o: Options, hard: Answer, soft: Answer, now: Time)
      modifies this, files
      ensures View() == Maintain(codec, old(View()), o, hard, soft, now)
      ensures View() == Runs.Do(codec, old(View()), o, Runs.Pass(hard, soft, now))
      ensures files.View() == old(files.View()) || Size(files.entries) < Size(old(files.entries))
    {
      hide Refresh, HardPass, AskModel, Size;
      MaintainOnlyShrinks(codec, View(), o, hard, soft, now);
      RefreshStatus(o, now);
      if status.state == RetryWaiting && status.nextRetryAt.Some? && status.nextRetryAt.value <= now {
        status := status.(state := HardPending, nextRetryAt := None, updatedAt := now);
      }
      RunHardIfPending(codec, o, hard, now);
      if status.state == Dirty && o.hasModel && o.daily && status.lastSoftDay != Some(o.day(now)) {
        var outcome := RunModel(codec, o, soft, now);
        match outcome {
          case Shrunk(_) =>
          case NoShrink(input, output) => status := AfterSoft(status, o, SoftNotSmaller(input, output), now);
          case Broken(message) => status := AfterSoft(status, o, Failed(message), now);
        }
      }
    }
  }
}
