/** Runs of the memory that show what its guarantees leave open. */
module MemoryExamples {
  import opened Wrappers
  import opened Text
  import opened MemoryEntries
  import opened MemoryConsistency
  import opened MemoryCompaction
  import opened MemoryStore
  import opened CompactionStatus
  import Runs = CompactionRuns

  const PLAIN: Codec := Codec((s: string) => s, (s: string) => s, (e: Entry) => 1)

  const NOBODY: Source := Source(None, None, None)

  /** A stored entry without subject and tags. */
  function Note(n: nat, text: string, at: Time): Entry {
    Entry(MakeId(User, n), User, None, text, [], at, at, None, NOBODY, true)
  }

  predicate AllPlain(entries: seq<Entry>) {
    |entries| <= MAX_ENTRIES && forall i | 0 <= i < |entries| :: entries[i].subject == None && entries[i].tags == []
  }

  function Noting(text: string, now: Time): MemoryStore.Op {
    Write(Draft(None, text, [], NOBODY), [], Local, now)
  }

  // ----- Single steps -----

  lemma {:induction false} PlainHash(e: Entry)
    requires e.subject == None && e.tags == []
    ensures HashOf(PLAIN, e) == "\n" + e.text + "\n"
  {
    assert "" + "\n" + e.text + "\n" + "" == "\n" + e.text + "\n";
  }

  lemma {:induction false} OtherHash(a: Entry, b: Entry)
    requires a.subject == None && a.tags == [] && b.subject == None && b.tags == [] && a.text != b.text
    ensures HashOf(PLAIN, a) != HashOf(PLAIN, b)
  {
    hide HashOf;
    PlainHash(a);
    PlainHash(b);
    var x, y := "\n" + a.text + "\n", "\n" + b.text + "\n";
    assert x[1..|x| - 1] == a.text && y[1..|y| - 1] == b.text;
  }

  lemma {:induction false} PlainLines(entries: seq<Entry>)
    ensures LineBytes(PLAIN, entries) == |entries|
  {
    if entries != [] {
      PlainLines(entries[1..]);
    }
  }

  lemma {:induction false} PlainSave(list: seq<Entry>)
    requires |list| <= MAX_ENTRIES
    ensures Save(PLAIN, list) == Ok(MemoryStore.Store(Actives(list), Some(NextNumber(list))))
  {
    hide Actives, NextNumber;
    PlainLines(Actives(list));
  }

  lemma {:induction false} MaxWithNote(entries: seq<Entry>, e: Entry, n: nat)
    requires MaxNumber(entries) < n < U64_LIMIT && e.id == MakeId(User, n)
    ensures MaxNumber(entries + [e]) == n
  {
    hide MakeId, IdNumber;
    IdNumberOfMakeId(User, n);
    assert (entries + [e])[..|entries|] == entries;
  }

  /** A new text without candidates is inserted under the next number. */
  lemma {:induction false} WriteInserts(entries: seq<Entry>, manifest: Option<nat>, n: nat, text: string, now: Time)
    requires AllPlain(entries) && |entries| < MAX_ENTRIES && StoredText(text)
    requires forall i | 0 <= i < |entries| :: entries[i].active && entries[i].text != text
    requires manifest.UnwrapOr(NextNumber(entries)) == n && MaxNumber(entries) < n < U64_LIMIT - 1
    ensures Step(PLAIN, User, MemoryStore.Store(entries, manifest), Noting(text, now))
         == (MemoryStore.Store(entries + [Note(n, text, now)], Some(n + 1)), Success)
  {
    hide HashOf, ValidText, DraftEntry, FindSame, Select, LocalDecision, Validated, ApplyActions, Save, RewriteEntry,
         RemoveEntry, AccessEntries, ReplaceIfSmaller, ProposeEntries, Compact, MakeId, NextNumber, MaxNumber, StoredText;
    var draft := Draft(None, text, [], NOBODY);
    var entry := DraftEntry(PLAIN, User, draft, now);
    StoredIsValid(text);
    PlainDraft(text, now);
    NoneSame(entries, entry);
    LocalInserts(entries, entry);
    InsertApplied(entries, manifest, n, entry, text, now);
    InsertedSaves(entries, n, text, now);
  }

  lemma {:induction false} InsertedSaves(entries: seq<Entry>, n: nat, text: string, now: Time)
    requires |entries| < MAX_ENTRIES && MaxNumber(entries) < n < U64_LIMIT - 1
    requires forall i | 0 <= i < |entries| :: entries[i].active
    ensures var list := entries + [Note(n, text, now)];
            Save(PLAIN, list) == Ok(MemoryStore.Store(list, Some(n + 1)))
  {
    hide MakeId, NextNumber, MaxNumber, Save, Actives;
    var list := entries + [Note(n, text, now)];
    PlainSave(list);
    AllActive(list);
    MaxWithNote(entries, Note(n, text, now), n);
    NextNumberAbove(list);
  }

  lemma {:induction false} NoneSame(entries: seq<Entry>, draft: Entry)
    requires AllPlain(entries) && draft.subject == None && draft.tags == []
    requires forall i | 0 <= i < |entries| :: entries[i].text != draft.text
    ensures FindSame(PLAIN, entries, HashOf(PLAIN, draft)) == |entries|
  {
    hide HashOf;
    if entries != [] {
      OtherHash(entries[0], draft);
      NoneSame(entries[1..], draft);
    }
  }

  lemma {:induction false} LocalInserts(entries: seq<Entry>, draft: Entry)
    ensures Select(entries, []) == [] && LocalDecision(PLAIN, draft, []) == [Insert] && Validated([Insert], [])
  {
    SingleValid(Insert, []);
  }

  lemma {:induction false} InsertApplied(entries: seq<Entry>, manifest: Option<nat>, n: nat, draft: Entry,
                                         text: string, now: Time)
    requires draft == Entry("", User, None, text, [], now, now, None, NOBODY, true)
    requires manifest.UnwrapOr(NextNumber(entries)) == n
    ensures ApplyActions(entries, User, manifest, draft, [Insert], now) == entries + [Note(n, text, now)]
  {
    hide MakeId, NextNumber, ApplyActions;
    SingleAction(entries, User, manifest, draft, Insert, now);
  }

  lemma {:induction false} PlainDraft(text: string, now: Time)
    requires StoredText(text)
    ensures DraftEntry(PLAIN, User, Draft(None, text, [], NOBODY), now)
         == Entry("", User, None, text, [], now, now, None, NOBODY, true)
  {
    hide Trim, StoredText;
    TrimStored(text);
  }

  lemma {:induction false} StoredIsValid(text: string)
    requires StoredText(text)
    ensures ValidText(text)
  {
    TrimStored(text);
  }

  // ----- One id issued twice -----

  const REUSE: seq<MemoryStore.Op> :=
    [Noting("a", 1), Noting("b", 2), Remove(MakeId(User, 2), 3), Rewrite(MakeId(User, 1), "c", 4), Noting("d", 5)]

  lemma {:induction false} ShortStored(text: string)
    requires |text| == 1 && 'a' <= text[0] <= 'd'
    ensures StoredText(text)
  {
    assert Bytes(text) == CharBytes(text[0]) + Bytes(text[1..]);
  }

  lemma {:induction false} OneAndTwo()
    ensures MakeId(User, 1) != MakeId(User, 2)
  {
    DifferentNumbers(1, 2);
  }

  lemma {:induction false} RemoveSecond(one: Entry, two: Entry)
    requires one == Note(1, "a", 1) && two == Note(2, "b", 2)
    ensures Step(PLAIN, User, MemoryStore.Store([one, two], Some(3)), Remove(MakeId(User, 2), 3))
         == (MemoryStore.Store([one], Some(3)), Success)
  {
    hide MakeId, NextNumber, MaxNumber, Save;
    OneAndTwo();
    var list := [one, two.(active := false, updatedAt := 3)];
    assert [one, two][1..] == [two];
    assert FindActiveId([one, two], MakeId(User, 2)) == 1;
    assert [one, two][1 := list[1]] == list;
    PlainSave(list);
    ActivesWithout(list, 1);
    assert list[..1] + list[2..] == [one];
    CounterOfTwo(list);
  }

  lemma {:induction false} CounterOfTwo(list: seq<Entry>)
    requires |list| == 2 && list[0].id == MakeId(User, 1) && list[1].id == MakeId(User, 2)
    ensures NextNumber(list) == 3
  {
    hide MakeId;
    CounterOfOne([list[0]]);
    MaxWithNote([list[0]], list[1], 2);
    assert [list[0]] + [list[1]] == list;
  }

  lemma {:induction false} CounterOfOne(list: seq<Entry>)
    requires |list| == 1 && list[0].id == MakeId(User, 1)
    ensures NextNumber(list) == 2 && MaxNumber(list) == 1
  {
    hide MakeId;
    assert MaxNumber([]) == 0;
    MaxWithNote([], list[0], 1);
    assert [] + [list[0]] == list;
  }

  lemma {:induction false} RewriteFirst(one: Entry)
    requires one == Note(1, "a", 1)
    ensures Step(PLAIN, User, MemoryStore.Store([one], Some(3)), Rewrite(MakeId(User, 1), "c", 4))
         == (MemoryStore.Store([one.(text := "c", updatedAt := 4)], Some(2)), Success)
  {
    hide MakeId, NextNumber, MaxNumber, Save, Trim, StoredText;
    ShortStored("c");
    StoredIsValid("c");
    TrimStored("c");
    var list := [one.(text := "c", updatedAt := 4)];
    assert FindActiveId([one], MakeId(User, 1)) == 0;
    assert [one][0 := list[0]] == list;
    PlainSave(list);
    AllActive(list);
    CounterOfOne(list);
  }

  function After(s: MemoryStore.Store, op: MemoryStore.Op): MemoryStore.Store {
    Step(PLAIN, User, s, op).0
  }

  lemma {:induction false} FiveSteps(s: MemoryStore.Store, ops: seq<MemoryStore.Op>)
    requires |ops| == 5
    ensures var two := After(After(s, ops[0]), ops[1]);
            var four := After(After(two, ops[2]), ops[3]);
            && MemoryStore.Run(PLAIN, User, s, ops[..2]) == two && MemoryStore.Run(PLAIN, User, s, ops[..4]) == four
            && MemoryStore.Run(PLAIN, User, s, ops) == After(four, ops[4])
  {
    hide Step;
    var one := After(s, ops[0]);
    var two := After(one, ops[1]);
    var three := After(two, ops[2]);
    var four := After(three, ops[3]);
    RunOne(s, ops);
    RunOne(one, ops[1..]);
    RunOne(two, ops[2..]);
    RunOne(three, ops[3..]);
    RunOne(four, ops[4..]);
    RunOne(s, ops[..2]);
    RunOne(one, ops[1..2]);
    RunOne(s, ops[..4]);
    RunOne(one, ops[1..4]);
    RunOne(two, ops[2..4]);
    RunOne(three, ops[3..4]);
    assert ops[..2][1..] == ops[1..2] && ops[1..2][1..] == [] && ops[..4][1..] == ops[1..4] && ops[1..4][1..] == ops[2..4];
    assert ops[2..4][1..] == ops[3..4] && ops[3..4][1..] == [] && ops[1..][1..] == ops[2..] && ops[2..][1..] == ops[3..];
    assert ops[3..][1..] == ops[4..] && ops[4..][1..] == [];
  }

  lemma {:induction false} RunOne(s: MemoryStore.Store, ops: seq<MemoryStore.Op>)
    requires ops != []
    ensures MemoryStore.Run(PLAIN, User, s, ops)
         == MemoryStore.Run(PLAIN, User, Step(PLAIN, User, s, ops[0]).0, ops[1..])
    ensures MemoryStore.Run(PLAIN, User, s, []) == s
  {
    hide Step;
  }

  /**
   Two different memories under one id: number 2 is inserted, deleted, and after the update of number 1 inserted
   again, all below the bounds of the store invariant.
   */
  lemma {:induction false} NumberIssuedTwice()
    ensures var two := MemoryStore.Run(PLAIN, User, MemoryStore.EMPTY, REUSE[..2]);
            var four := MemoryStore.Run(PLAIN, User, MemoryStore.EMPTY, REUSE[..4]);
            var five := MemoryStore.Run(PLAIN, User, MemoryStore.EMPTY, REUSE);
            && |two.entries| == 2 && two.entries[1] == Note(2, "b", 2)
            && |four.entries| == 1 && four.entries[0].id != two.entries[1].id
            && |five.entries| == 2 && five.entries[1] == Note(2, "d", 5)
  {
    hide Step, MakeId, NextNumber, MaxNumber, StoredText, MemoryStore.Run;
    var a, b, d := Note(1, "a", 1), Note(2, "b", 2), Note(2, "d", 5);
    var c := a.(text := "c", updatedAt := 4);
    ShortStored("a");
    ShortStored("b");
    ShortStored("d");
    OneAndTwo();
    EmptyCounter();
    WriteInserts([], None, 1, "a", 1);
    assert [] + [a] == [a];
    CounterOfOne([a]);
    CounterOfOne([c]);
    WriteInserts([a], Some(2), 2, "b", 2);
    assert [a] + [b] == [a, b];
    RemoveSecond(a, b);
    RewriteFirst(a);
    WriteInserts([c], Some(2), 2, "d", 5);
    assert [c] + [d] == [c, d];
    FiveSteps(MemoryStore.EMPTY, REUSE);
  }

  lemma {:induction false} EmptyCounter()
    ensures MaxNumber([]) == 0 && NextNumber([]) == 1
  {
  }

  // ----- A text lost -----

  /**
   A successful write that leaves no trace of its text: a new text whose best candidate scores 1.0, as every entry does
   when the draft has no words to search by, only renews the times of that candidate.
   */
  lemma {:induction false} TextLost()
    ensures var a := Note(1, "a", 1);
            var after := a.(updatedAt := 2, lastAccessedAt := Some(2));
            && Step(PLAIN, User, MemoryStore.Store([a], Some(2)),
                    Write(Draft(None, "?", [], NOBODY), [Hit(0, 1.0)], Local, 2))
               == (MemoryStore.Store([after], Some(2)), Success)
            && !SomeSays(PLAIN, [after], DraftEntry(PLAIN, User, Draft(None, "?", [], NOBODY), 2))
  {
    hide HashOf, ValidText, DraftEntry, FindSame, Select, LocalDecision, Validated, ApplyActions, Save, RewriteEntry,
         RemoveEntry, AccessEntries, ReplaceIfSmaller, ProposeEntries, Compact, MakeId, NextNumber, StoredText, Trim,
         Actives;
    var a, draft := Note(1, "a", 1), Draft(None, "?", [], NOBODY);
    var after := a.(updatedAt := 2, lastAccessedAt := Some(2));
    var entry := Entry("", User, None, "?", [], 2, 2, None, NOBODY, true);
    QuestionStored();
    StoredIsValid("?");
    PlainDraft("?", 2);
    NoneSame([a], entry);
    BestIsTouched(a, entry);
    TouchedAlone(a, entry);
    PlainSave([after]);
    AllActive([after]);
    CounterOfOne([after]);
    OtherHash(after, entry);
    assert forall e | e in [after] :: e == after;
  }

  lemma {:induction false} QuestionStored()
    ensures StoredText("?")
  {
    AsciiBytes("?");
  }

  lemma {:induction false} BestIsTouched(a: Entry, draft: Entry)
    requires draft.subject == None
    ensures Select([a], [Hit(0, 1.0)]) == [Candidate(a, 1.0)]
    ensures LocalDecision(PLAIN, draft, [Candidate(a, 1.0)]) == [Touch(a.id)]
    ensures Validated([Touch(a.id)], [Candidate(a, 1.0)])
  {
    var candidates := [Candidate(a, 1.0)];
    assert [Hit(0, 1.0)][1..] == [] && Select([a], []) == [];
    assert candidates[1..] == [] && SameSubjects(PLAIN, draft, []) == [];
    assert SameSubjects(PLAIN, draft, candidates) == [] && NewestFirst([]) == [];
    assert candidates[0].entry.id == a.id;
    SingleValid(Touch(a.id), candidates);
  }

  lemma {:induction false} TouchedAlone(a: Entry, draft: Entry)
    ensures ApplyActions([a], User, Some(2), draft, [Touch(a.id)], 2)
         == [a.(updatedAt := 2, lastAccessedAt := Some(2))]
  {
    SingleAction([a], User, Some(2), draft, Touch(a.id), 2);
    assert FindEntry([a], a.id) == 0;
  }

  // ----- A verdict forgotten -----

  const OPTIONS: Options :=
    Options(512, 512, 60, true, true, (entries: seq<Entry>) => "", (at: Time) => at / 86400)

  const CALM: Memory := Memory(MemoryStore.EMPTY, Status(Idle, 0, None, None, "", "", None, None, 0))

  function Repeat(c: char, n: nat): (s: string)
    ensures |s| == n && forall i | 0 <= i < n :: s[i] == c
  {
    seq(n, _ => c)
  }

  function Proposal(text: string): Answer {
    ProposedList([Proposed(None, None, text, [])], NOBODY)
  }

  /** A first memory, two tries of the model without a gain, a soft compaction with a gain, a second memory. */
  function Forgetful(a: string, b: string, c: string, d: string): seq<Runs.Op> {
    [Runs.Change(Noting(a, 1), Proposal(b), 2), Runs.Pass(Proposal(b), ProviderError(""), 3),
     Runs.Pass(ProviderError(""), Proposal(c), 4), Runs.Change(Noting(d, 5), ProviderError(""), 6)]
  }

  lemma {:induction false} NoteLine(n: nat, text: string, at: Time)
    requires n < 10 && StoredText(text)
    ensures RenderedLine(Note(n, text, at)) == 9 + Bytes(text)
  {
    hide Bytes, StoredText, Trim;
    TrimStored(text);
    ShortId(n);
    assert TagBytes([]) == 0;
  }

  lemma {:induction false} ShortId(n: nat)
    requires n < 10
    ensures Bytes(MakeId(User, n)) == 3
  {
    AsciiBytes(MakeId(User, n));
  }

  lemma {:induction false} OneSize(n: nat, text: string, at: Time)
    requires n < 10 && StoredText(text)
    ensures Size([Note(n, text, at)]) == 9 + Bytes(text)
  {
    hide RenderedLine, StoredText;
    var list := [Note(n, text, at)];
    AllActive(list);
    NoteLine(n, text, at);
    assert list[1..] == [] && RenderedBytes([]) == 0;
  }

  lemma {:induction false} TwoSize(x: Entry, y: Entry)
    requires x.active && y.active
    ensures Size([x, y]) == RenderedLine(x) + RenderedLine(y)
  {
    hide RenderedLine;
    var list := [x, y];
    AllActive(list);
    assert list[1..] == [y] && [y][1..] == [];
    assert RenderedBytes([y]) == RenderedLine(y) + RenderedBytes([]) == RenderedLine(y);
    assert RenderedBytes(list) == RenderedLine(x) + RenderedBytes([y]);
  }

  lemma {:induction false} NewReplacement(entries: seq<Entry>, text: string, now: Time)
    requires |entries| == 1 && entries[0].id == MakeId(User, 1) && StoredText(text)
    ensures Replacement(PLAIN, entries, NOBODY, Proposal(text).items[0], MakeId(User, 2), now) == Note(2, text, now)
  {
    hide MakeId, StoredText, Trim, FindActive;
    TrimStored(text);
    OneAndTwo();
    assert FindActive(entries, MakeId(User, 2)).None?;
  }

  lemma {:induction false} BuildStepOne(entries: seq<Entry>, text: string, now: Time)
    requires |entries| == 1 && entries[0].id == MakeId(User, 1) && StoredText(text)
    ensures var step := BuildStep(PLAIN, entries, NOBODY, Build(2, {}, {}, []), Proposal(text).items[0], now);
            step.Ok? && step.value.output == [Note(2, text, now)]
  {
    hide MakeId, ContentHash, StoredText, ValidText, Replacement, Note;
    StoredIsValid(text);
    NewReplacement(entries, text, now);
    assert FreeNumber(2, {}) == 2;
    assert [] + [Note(2, text, now)] == [Note(2, text, now)];
  }

  /** One proposed text becomes the one entry, under the next number. */
  lemma {:induction false} BuildOne(entries: seq<Entry>, text: string, now: Time)
    requires |entries| == 1 && entries[0].id == MakeId(User, 1) && StoredText(text)
    ensures var built := BuildFrom(PLAIN, entries, NOBODY, BuildStart(entries), Proposal(text).items, now);
            built.Ok? && built.value.output == [Note(2, text, now)]
  {
    hide MakeId, StoredText, MaxNumber, NextNumber, BuildStep, Note;
    CounterOfOne(entries);
    BuildStepOne(entries, text, now);
    var items := Proposal(text).items;
    var start := BuildStart(entries);
    var step := BuildStep(PLAIN, entries, NOBODY, start, items[0], now);
    assert items[1..] == [];
    assert BuildFrom(PLAIN, entries, NOBODY, step.value, [], now) == Ok(step.value);
  }

  lemma {:induction false} AskOne(m: Memory, a: string, at: Time, text: string, now: Time)
    requires m.store.entries == [Note(1, a, at)] && StoredText(a) && StoredText(text)
    ensures var outcome := AskModel(PLAIN, m, OPTIONS, Proposal(text), now);
            if Bytes(text) >= Bytes(a) then outcome == NoShrink(9 + Bytes(a), 9 + Bytes(text))
            else
              var output := [Note(2, text, now)];
              outcome == Shrunk(Memory(MemoryStore.Store(output, Some(3)), AfterSuccess(m.status, OPTIONS, output, now)))
  {
    hide Size, BuildFrom, StoredText, Bytes, MakeId, Save, AfterSuccess, NextNumber, MaxNumber, Actives;
    BuildOne(m.store.entries, text, now);
    OneSize(1, a, at);
    OneSize(2, text, now);
    assert MaxNumber([]) == 0 by {
      EmptyCounter();
    }
    InsertedSaves([], 2, text, now);
    assert [] + [Note(2, text, now)] == [Note(2, text, now)];
  }

  function AfterFirst(a: string): Status
    requires Bytes(a) == 600
  {
    AfterNoShrink(CALM.status.(state := HardPending, updatedAt := 2), OPTIONS, 609, 609, 2)
  }

  /** The first memory makes hard compaction pending, and the model has nothing smaller. */
  lemma {:induction false} FirstTry(a: string, b: string)
    requires StoredText(a) && StoredText(b) && Bytes(a) == 600 && Bytes(b) == 600
    ensures Runs.Do(PLAIN, CALM, OPTIONS, Runs.Change(Noting(a, 1), Proposal(b), 2))
         == Memory(MemoryStore.Store([Note(1, a, 1)], Some(2)), AfterFirst(a))
  {
    hide StoredText, Bytes, MakeId, Step, Size, AskModel, NextNumber, MaxNumber;
    EmptyCounter();
    WriteInserts([], None, 1, a, 1);
    assert [] + [Note(1, a, 1)] == [Note(1, a, 1)];
    OneSize(1, a, 1);
    var refreshed := Memory(MemoryStore.Store([Note(1, a, 1)], Some(2)),
                            CALM.status.(state := HardPending, updatedAt := 2));
    assert Runs.Refreshed(PLAIN, CALM, OPTIONS, Runs.Change(Noting(a, 1), Proposal(b), 2)) == Some(refreshed);
    AskOne(refreshed, a, 1, b, 2);
  }

  function AfterSecond(a: string): Status
    requires Bytes(a) == 600
  {
    AfterNoShrink(AfterFirst(a).(updatedAt := 3), OPTIONS, 609, 609, 3)
  }

  /** The second try gives the verdict: idle, with the override above the size. */
  lemma {:induction false} SecondTry(a: string, b: string)
    requires StoredText(a) && StoredText(b) && Bytes(a) == 600 && Bytes(b) == 600
    ensures var m := Memory(MemoryStore.Store([Note(1, a, 1)], Some(2)), AfterFirst(a));
            Runs.Do(PLAIN, m, OPTIONS, Runs.Pass(Proposal(b), ProviderError(""), 3)) == m.(status := AfterSecond(a))
    ensures Runs.VerdictAt(AfterSecond(a), OPTIONS, 609)
  {
    hide StoredText, Bytes, MakeId, Size, AskModel;
    var m := Memory(MemoryStore.Store([Note(1, a, 1)], Some(2)), AfterFirst(a));
    OneSize(1, a, 1);
    var refreshed := m.(status := AfterFirst(a).(updatedAt := 3));
    assert Runs.Refreshed(PLAIN, m, OPTIONS, Runs.Pass(Proposal(b), ProviderError(""), 3)) == Some(refreshed);
    AskOne(refreshed, a, 1, b, 3);
  }

  function AfterSoftening(a: string, c: string): Memory
    requires Bytes(a) == 600
  {
    var output := [Note(2, c, 4)];
    Memory(MemoryStore.Store(output, Some(3)),
           AfterSuccess(AfterSecond(a).(state := Dirty, updatedAt := 4), OPTIONS, output, 4))
  }

  /** The soft compaction of the next pass shrinks the memory. */
  lemma {:induction false} Softening(a: string, c: string)
    requires StoredText(a) && StoredText(c) && Bytes(a) == 600 && Bytes(c) == 100
    ensures var m := Memory(MemoryStore.Store([Note(1, a, 1)], Some(2)), AfterSecond(a));
            var op := Runs.Pass(ProviderError(""), Proposal(c), 4);
            && Runs.Refreshed(PLAIN, m, OPTIONS, op) == Some(m.(status := AfterSecond(a).(state := Dirty, updatedAt := 4)))
            && Runs.Do(PLAIN, m, OPTIONS, op) == AfterSoftening(a, c)
  {
    hide StoredText, Bytes, MakeId, Size, AskModel;
    var m := Memory(MemoryStore.Store([Note(1, a, 1)], Some(2)), AfterSecond(a));
    OneSize(1, a, 1);
    var refreshed := m.(status := AfterSecond(a).(state := Dirty, updatedAt := 4));
    assert Runs.Refreshed(PLAIN, m, OPTIONS, Runs.Pass(ProviderError(""), Proposal(c), 4)) == Some(refreshed);
    AskOne(refreshed, a, 1, c, 4);
  }

  /** The second memory brings the size back above the hard threshold, still below the size of the verdict. */
  lemma {:induction false} Reopening(a: string, c: string, d: string)
    requires StoredText(c) && StoredText(d) && c != d && Bytes(a) == 600 && Bytes(c) == 100 && Bytes(d) == 450
    ensures var refreshed := Runs.Refreshed(PLAIN, AfterSoftening(a, c), OPTIONS,
                                            Runs.Change(Noting(d, 5), ProviderError(""), 6));
            refreshed.Some? && refreshed.value.status.state == HardPending && Size(refreshed.value.store.entries) == 568
  {
    hide StoredText, Bytes, MakeId, Step, Size, RenderedLine, NextNumber, MaxNumber;
    var entries := [Note(2, c, 4)];
    assert MaxNumber(entries) == 2 by {
      EmptyCounter();
      MaxWithNote([], Note(2, c, 4), 2);
      assert [] + entries == entries;
    }
    WriteInserts(entries, Some(3), 3, d, 5);
    assert entries + [Note(3, d, 5)] == [Note(2, c, 4), Note(3, d, 5)];
    TwoSize(Note(2, c, 4), Note(3, d, 5));
    NoteLine(2, c, 4);
    NoteLine(3, d, 5);
  }

  const FORGETFUL: seq<Runs.Op> := Forgetful(Repeat('a', 600), Repeat('b', 600), Repeat('c', 100), Repeat('d', 450))

  /**
   A successful soft compaction forgets the verdict: after two operations from an empty memory hard compaction has
   given up at 609 bytes; the sizes seen from then on are 609 and 568, and at 568 hard compaction is tried again.
   */
  lemma {:induction false} SoftSuccessForgetsVerdict()
    ensures var two, more := Runs.Run(PLAIN, CALM, OPTIONS, FORGETFUL[..2]), FORGETFUL[2..];
            && Runs.VerdictAt(two.status, OPTIONS, 609) && Runs.StaysInside(PLAIN, two, OPTIONS, more, 609)
            && Runs.TriesHard(PLAIN, two, OPTIONS, more, 1)
  {
    hide *;
    var a, b, c, d := Repeat('a', 600), Repeat('b', 600), Repeat('c', 100), Repeat('d', 450);
    Lengths(a, b, c, d);
    FirstTry(a, b);
    SecondTry(a, b);
    Softening(a, c);
    Reopening(a, c, d);
    FirstTwo(a, b, c, d);
    LastTwo(a, b, c, d);
    ForgetfulIs();
  }

  lemma {:induction false} ForgetfulIs()
    ensures FORGETFUL == Forgetful(Repeat('a', 600), Repeat('b', 600), Repeat('c', 100), Repeat('d', 450))
    ensures |FORGETFUL| == 4
  {
  }

  lemma {:induction false} Lengths(a: string, b: string, c: string, d: string)
    requires a == Repeat('a', 600) && b == Repeat('b', 600) && c == Repeat('c', 100) && d == Repeat('d', 450)
    ensures StoredText(a) && StoredText(b) && StoredText(c) && StoredText(d)
    ensures Bytes(a) == 600 && Bytes(b) == 600 && Bytes(c) == 100 && Bytes(d) == 450 && c != d
  {
    hide Bytes, Repeat;
    AsciiBytes(a);
    AsciiBytes(b);
    AsciiBytes(c);
    AsciiBytes(d);
  }

  lemma {:induction false} FirstTwo(a: string, b: string, c: string, d: string)
    requires StoredText(a) && StoredText(b) && Bytes(a) == 600 && Bytes(b) == 600
    ensures Runs.Run(PLAIN, CALM, OPTIONS, Forgetful(a, b, c, d)[..2])
         == Memory(MemoryStore.Store([Note(1, a, 1)], Some(2)), AfterSecond(a))
  {
    hide Runs.Do, StoredText, Bytes, Noting, Proposal;
    FirstTry(a, b);
    SecondTry(a, b);
    var ops := Forgetful(a, b, c, d);
    assert ops[..2][..1] == ops[..1] && ops[..1][..0] == [];
    assert Runs.Run(PLAIN, CALM, OPTIONS, []) == CALM;
    assert Runs.Run(PLAIN, CALM, OPTIONS, ops[..1]) == Runs.Do(PLAIN, CALM, OPTIONS, ops[0]);
  }

  lemma {:induction false} LastTwo(a: string, b: string, c: string, d: string)
    requires StoredText(a) && StoredText(c) && StoredText(d) && c != d
    requires Bytes(a) == 600 && Bytes(c) == 100 && Bytes(d) == 450
    ensures var two := Memory(MemoryStore.Store([Note(1, a, 1)], Some(2)), AfterSecond(a));
            var more := Forgetful(a, b, c, d)[2..];
            Runs.StaysInside(PLAIN, two, OPTIONS, more, 609) && Runs.TriesHard(PLAIN, two, OPTIONS, more, 1)
  {
    hide Runs.Do, Runs.Refreshed, StoredText, Bytes, Noting, Proposal, Size, MakeId;
    var two := Memory(MemoryStore.Store([Note(1, a, 1)], Some(2)), AfterSecond(a));
    var more := Forgetful(a, b, c, d)[2..];
    Softening(a, c);
    Reopening(a, c, d);
    OneSize(1, a, 1);
    assert more[..0] == [] && more[..1][..0] == [];
    assert Runs.Run(PLAIN, two, OPTIONS, []) == two;
    assert Runs.Run(PLAIN, two, OPTIONS, more[..1]) == Runs.Do(PLAIN, two, OPTIONS, more[0]) == AfterSoftening(a, c);
    assert Runs.SizeSeen(PLAIN, two, OPTIONS, more, 0) == Some(609);
    assert Runs.SizeSeen(PLAIN, two, OPTIONS, more, 1) == Some(568);
  }
}
