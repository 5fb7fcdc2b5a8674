/**
 Runs of the user scope: stored changes, each followed by its own refresh and hard pass, and maintenance passes, each
 with its own time and model answers. How long a no-shrink verdict lasts.
 */
module CompactionRuns {
  import opened Wrappers
  import opened Text
  import opened MemoryEntries
  import opened MemoryCompaction
  import opened CompactionStatus
  import Store = MemoryStore

  datatype Op =
    | Change(change: Store.Op, hard: Answer, at: Time)
    | Pass(hard: Answer, soft: Answer, at: Time)

  /**
   The memory as hard compaction finds it: after the change and the refresh. None when the operation does not come
   that far: it failed, or it was a search, which refreshes nothing.
   */
  function Refreshed(codec: Codec, m: Memory, o: Options, op: Op): Option<Memory> {
    match op
    case Pass(_, _, at) => Some(m.(status := RetryDue(Refresh(m.status, m.store.entries, o, at), at)))
    case Change(change, _, at) =>
      var (store, reply) := Store.Step(codec, User, m.store, change);
      if !reply.Success? || change.Accessed? then None
      else Some(Memory(store, Refresh(m.status, store.entries, o, at)))
  }

  /** One operation, as `write`, `update`, `delete`, `search` and `maintain_user_memory` run it. */
  function Do(codec: Codec, m: Memory, o: Options, op: Op): Memory {
    var refreshed := Refreshed(codec, m, o, op);
    if refreshed.None? then m.(store := Store.Step(codec, User, m.store, op.change).0)
    else
      var after := HardPass(codec, refreshed.value, o, op.hard, op.at);
      if op.Pass? then SoftPass(codec, after, o, op.soft, op.at) else after
  }

  function Run(codec: Codec, m: Memory, o: Options, ops: seq<Op>): Memory
    decreases |ops|
  {
    if ops == [] then m else Do(codec, Run(codec, m, o, ops[..|ops| - 1]), o, ops[|ops| - 1])
  }

  // ----- Events of a run -----

  /** The memory before operation `k`. */
  function Before(codec: Codec, m: Memory, o: Options, ops: seq<Op>, k: nat): Memory
    requires k < |ops|
  {
    Run(codec, m, o, ops[..k])
  }

  /** Operation `k` tries hard compaction. */
  predicate TriesHard(codec: Codec, m: Memory, o: Options, ops: seq<Op>, k: nat)
    requires k < |ops|
  {
    var refreshed := Refreshed(codec, Before(codec, m, o, ops, k), o, ops[k]);
    refreshed.Some? && refreshed.value.status.state == HardPending
  }

  /** The rendered size operation `k` sees, if it refreshes the status. */
  function SizeSeen(codec: Codec, m: Memory, o: Options, ops: seq<Op>, k: nat): Option<nat>
    requires k < |ops|
  {
    var refreshed := Refreshed(codec, Before(codec, m, o, ops, k), o, ops[k]);
    if refreshed.None? then None else Some(Size(refreshed.value.store.entries))
  }

  /** A soft compaction shrinks the memory. */
  predicate Softens(codec: Codec, m: Memory, o: Options, op: Op) {
    op.Pass?
    && var after := HardPass(codec, Refreshed(codec, m, o, op).value, o, op.hard, op.at);
       SoftDue(after.status, o, op.at) && AskModel(codec, after, o, op.soft, op.at).Shrunk?
  }

  /** Before operation `k` some size fell below the soft threshold, or some soft compaction shrank the memory. */
  predicate Released(codec: Codec, m: Memory, o: Options, ops: seq<Op>, k: nat)
    requires k <= |ops|
  {
    exists i | 0 <= i < k ::
      || Softens(codec, Before(codec, m, o, ops, i), o, ops[i])
      || (SizeSeen(codec, m, o, ops, i).Some? && SizeSeen(codec, m, o, ops, i).value < o.soft)
  }

  /** Operation `k` sees a size that ends the verdict given at size `s`. */
  predicate Reopens(codec: Codec, m: Memory, o: Options, ops: seq<Op>, k: nat, s: nat)
    requires k < |ops|
  {
    var size := SizeSeen(codec, m, o, ops, k);
    size.Some? && size.value >= o.hard && (size.value > s || Released(codec, m, o, ops, k))
  }

  /** The status right after hard compaction gave up at size `s`: at least the second try without a gain. */
  ghost predicate VerdictAt(status: Status, o: Options, s: nat) {
    s + 1 < U64_LIMIT
    && exists before: Status, output: nat, at: Time ::
         before.attempts > 0 && status == AfterNoShrink(before, o, s, output, at)
  }

  // ----- How long the verdict lasts -----

  /** The status as long as nothing has been tried again: the override of the verdict, until something releases it. */
  predicate Held(status: Status, o: Options, s: nat, released: bool) {
    && status.state in {Idle, Dirty}
    && status.override == if released then None else Some(if s + 1 >= o.hard then s + 1 else o.hard)
  }

  lemma {:induction false} VerdictHolds(status: Status, o: Options, s: nat)
    requires VerdictAt(status, o, s)
    ensures Held(status, o, s, false)
  {
  }

  /** A refresh under a held status: what it makes pending, and what it releases. */
  lemma {:induction false} RefreshHeld(status: Status, entries: seq<Entry>, o: Options, at: Time, s: nat,
                                       released: bool)
    requires Normalized(o) && Held(status, o, s, released)
    ensures var after, size := Refresh(status, entries, o, at), Size(entries);
            && RetryDue(after, at) == after
            && (after.state == HardPending <==> size >= o.hard && (size > s || released))
            && (after.state != HardPending ==> Held(after, o, s, released || size < o.soft))
  {
    hide Size;
  }

  /** One operation that does not try hard compaction keeps the status held, and releases it exactly by an event. */
  lemma {:induction false} DoHeld(codec: Codec, m: Memory, o: Options, op: Op, s: nat, released: bool)
    requires Normalized(o) && Held(m.status, o, s, released)
    ensures var refreshed := Refreshed(codec, m, o, op);
            && (refreshed.None? ==> Held(Do(codec, m, o, op).status, o, s, released) && !Softens(codec, m, o, op))
            && (refreshed.Some? ==>
                  var size := Size(refreshed.value.store.entries);
                  && (refreshed.value.status.state == HardPending <==> size >= o.hard && (size > s || released))
                  && (refreshed.value.status.state != HardPending ==>
                        Held(Do(codec, m, o, op).status, o, s, released || size < o.soft || Softens(codec, m, o, op))))
  {
    hide Size, Refresh, BuildFrom, Store.Save;
    var refreshed := Refreshed(codec, m, o, op);
    if refreshed.Some? {
      var entries := refreshed.value.store.entries;
      RefreshHeld(m.status, entries, o, op.at, s, released);
      if refreshed.value.status.state != HardPending && op.Pass? {
        SoftHeld(codec, refreshed.value, o, op.soft, op.at, s, released || Size(entries) < o.soft);
      }
    }
  }

  lemma {:induction false} SoftHeld(codec: Codec, m: Memory, o: Options, soft: Answer, at: Time, s: nat, released: bool)
    requires Held(m.status, o, s, released)
    ensures Held(SoftPass(codec, m, o, soft, at).status, o, s,
                 released || (SoftDue(m.status, o, at) && AskModel(codec, m, o, soft, at).Shrunk?))
  {
    hide Size, BuildFrom, Store.Save;
  }

  /** As long as no operation has tried hard compaction, the status is held, released exactly by the events so far. */
  lemma {:induction false} RunHeld(codec: Codec, m: Memory, o: Options, ops: seq<Op>, s: nat, k: nat)
    requires Normalized(o) && VerdictAt(m.status, o, s) && k <= |ops|
    requires forall j | 0 <= j < k :: !TriesHard(codec, m, o, ops, j)
    ensures Held(Run(codec, m, o, ops[..k]).status, o, s, Released(codec, m, o, ops, k))
  {
    hide Do, Refreshed, Size, Held, Softens;
    if k == 0 {
      VerdictHolds(m.status, o, s);
    } else {
      RunHeld(codec, m, o, ops, s, k - 1);
      assert ops[..k][..k - 1] == ops[..k - 1] && ops[..k][k - 1] == ops[k - 1];
      var before := Before(codec, m, o, ops, k - 1);
      assert !TriesHard(codec, m, o, ops, k - 1);
      DoHeld(codec, before, o, ops[k - 1], s, Released(codec, m, o, ops, k - 1));
      ReleasedStep(codec, m, o, ops, k - 1);
    }
  }

  lemma {:induction false} ReleasedStep(codec: Codec, m: Memory, o: Options, ops: seq<Op>, k: nat)
    requires k < |ops|
    ensures Released(codec, m, o, ops, k + 1) <==>
            || Released(codec, m, o, ops, k)
            || Softens(codec, Before(codec, m, o, ops, k), o, ops[k])
            || (SizeSeen(codec, m, o, ops, k).Some? && SizeSeen(codec, m, o, ops, k).value < o.soft)
  {
    hide Softens, SizeSeen, Before;
  }

  /** The first try: an operation before which nothing was tried tries hard compaction exactly when it reopens. */
  lemma {:induction false} FirstTry(codec: Codec, m: Memory, o: Options, ops: seq<Op>, s: nat, k: nat)
    requires Normalized(o) && VerdictAt(m.status, o, s) && k < |ops|
    requires forall j | 0 <= j < k :: !TriesHard(codec, m, o, ops, j)
    ensures TriesHard(codec, m, o, ops, k) <==> Reopens(codec, m, o, ops, k, s)
  {
    hide Do, Refreshed, Size, Held, Softens, Released, VerdictAt;
    RunHeld(codec, m, o, ops, s, k);
    DoHeld(codec, Before(codec, m, o, ops, k), o, ops[k], s, Released(codec, m, o, ops, k));
  }

  /**
   How long a verdict at size `s` lasts, over every run of changes and passes with any times and answers: hard
   compaction is tried again if and only if some operation sees a size of at least the hard threshold that exceeds
   `s`, or that comes after a size below the soft threshold or after a soft compaction that shrank the memory.
   */
  lemma {:induction false} VerdictEnds(codec: Codec, m: Memory, o: Options, ops: seq<Op>, s: nat)
    requires Normalized(o) && VerdictAt(m.status, o, s)
    ensures (exists k | 0 <= k < |ops| :: TriesHard(codec, m, o, ops, k))
            <==> (exists k | 0 <= k < |ops| :: Reopens(codec, m, o, ops, k, s))
  {
    hide TriesHard, Reopens, VerdictAt;
    if exists k | 0 <= k < |ops| :: TriesHard(codec, m, o, ops, k) || Reopens(codec, m, o, ops, k, s) {
      var k :| 0 <= k < |ops| && (TriesHard(codec, m, o, ops, k) || Reopens(codec, m, o, ops, k, s));
      var first := Earliest(codec, m, o, ops, s, k);
      FirstTry(codec, m, o, ops, s, first);
    }
  }

  /** The earliest operation at which either holds. */
  lemma {:induction false} Earliest(codec: Codec, m: Memory, o: Options, ops: seq<Op>, s: nat,
                                    k: nat) returns (first: nat)
    requires k < |ops| && (TriesHard(codec, m, o, ops, k) || Reopens(codec, m, o, ops, k, s))
    ensures first < |ops| && (TriesHard(codec, m, o, ops, first) || Reopens(codec, m, o, ops, first, s))
    ensures forall j | 0 <= j < first :: !TriesHard(codec, m, o, ops, j) && !Reopens(codec, m, o, ops, j, s)
  {
    hide TriesHard, Reopens;
    first := k;
    if exists j | 0 <= j < k :: TriesHard(codec, m, o, ops, j) || Reopens(codec, m, o, ops, j, s) {
      var j :| 0 <= j < k && (TriesHard(codec, m, o, ops, j) || Reopens(codec, m, o, ops, j, s));
      first := Earliest(codec, m, o, ops, s, j);
    }
  }

  /** Every size an operation sees is at least the soft threshold and below the override of a verdict at `s`. */
  predicate StaysInside(codec: Codec, m: Memory, o: Options, ops: seq<Op>, s: nat) {
    forall k | 0 <= k < |ops| && SizeSeen(codec, m, o, ops, k).Some? ::
      var size := SizeSeen(codec, m, o, ops, k).value;
      o.soft <= size && (size <= s || size < o.hard)
  }

  /**
   While the sizes stay between the soft threshold and the override, hard compaction is tried again if and only if a
   soft compaction shrank the memory and a later operation sees a size of at least the hard threshold.
   */
  lemma {:induction false} NoRetryAtSameSize(codec: Codec, m: Memory, o: Options, ops: seq<Op>, s: nat)
    requires Normalized(o) && VerdictAt(m.status, o, s) && StaysInside(codec, m, o, ops, s)
    ensures (exists k | 0 <= k < |ops| :: TriesHard(codec, m, o, ops, k))
            <==> exists i, k | 0 <= i < k < |ops| ::
                   && Softens(codec, Before(codec, m, o, ops, i), o, ops[i])
                   && SizeSeen(codec, m, o, ops, k).Some? && SizeSeen(codec, m, o, ops, k).value >= o.hard
  {
    hide TriesHard, Softens, Before, SizeSeen, VerdictAt;
    VerdictEnds(codec, m, o, ops, s);
    forall k | 0 <= k < |ops|
      ensures Reopens(codec, m, o, ops, k, s)
              <==> exists i | 0 <= i < k ::
                     && Softens(codec, Before(codec, m, o, ops, i), o, ops[i])
                     && SizeSeen(codec, m, o, ops, k).Some? && SizeSeen(codec, m, o, ops, k).value >= o.hard
    {
    }
  }

  /** Without a model no soft compaction runs, so while the sizes stay inside hard compaction is never tried again. */
  lemma {:induction false} NoRetryWithoutModel(codec: Codec, m: Memory, o: Options, ops: seq<Op>, s: nat)
    requires Normalized(o) && VerdictAt(m.status, o, s) && StaysInside(codec, m, o, ops, s) && !o.hasModel
    ensures forall k | 0 <= k < |ops| :: !TriesHard(codec, m, o, ops, k)
  {
    hide TriesHard, Before, SizeSeen, VerdictAt, StaysInside;
    NoRetryAtSameSize(codec, m, o, ops, s);
  }
}
