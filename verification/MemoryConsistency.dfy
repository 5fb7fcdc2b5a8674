/** The action language of a memory write: deciding locally, validating, and applying to the entries. */
module MemoryConsistency {
  import opened Wrappers
  import opened Text
  import opened MemoryEntries

  datatype Action =
    | Touch(id: string)
    | Update(id: string, text: string)
    | Delete(id: string)
    | Insert

  datatype Candidate = Candidate(entry: Entry, score: real)

  // ----- Deciding -----

  function SubjectKey(codec: Codec, e: Entry): Option<string> {
    if e.subject.Some? then Some(codec.normalize(e.subject.value)) else None
  }

  predicate SameSubject(codec: Codec, draft: Entry, c: Candidate) {
    var key := SubjectKey(codec, draft);
    key.Some? && key.value != "" && SubjectKey(codec, c.entry) == key
  }

  function SameSubjects(codec: Codec, draft: Entry, candidates: seq<Candidate>): (r: seq<Candidate>)
    ensures forall i | 0 <= i < |r| :: r[i] in candidates && SameSubject(codec, draft, r[i])
    ensures forall i | 0 <= i < |candidates| && SameSubject(codec, draft, candidates[i]) :: candidates[i] in r
  {
    if candidates == [] then []
    else
      (if SameSubject(codec, draft, candidates[0]) then [candidates[0]] else [])
      + SameSubjects(codec, draft, candidates[1..])
  }

  /** Stable insertion, newest first. */
  function InsertByTime(c: Candidate, sorted: seq<Candidate>): seq<Candidate> {
    if sorted == [] || c.entry.updatedAt >= sorted[0].entry.updatedAt then [c] + sorted
    else [sorted[0]] + InsertByTime(c, sorted[1..])
  }

  function NewestFirst(candidates: seq<Candidate>): seq<Candidate> {
    if candidates == [] then [] else InsertByTime(candidates[0], NewestFirst(candidates[1..]))
  }

  function Deletes(stale: seq<Candidate>): (r: seq<Action>)
    ensures |r| == |stale| && forall i | 0 <= i < |r| :: r[i] == Delete(stale[i].entry.id)
  {
    seq(|stale|, i requires 0 <= i < |stale| => Delete(stale[i].entry.id))
  }

  /** `local_consistency_decision`. */
  function LocalDecision(codec: Codec, draft: Entry, candidates: seq<Candidate>): seq<Action> {
    var same := NewestFirst(SameSubjects(codec, draft, candidates));
    if same != [] then
      var target := same[0].entry;
      if codec.normalize(target.text) == codec.normalize(draft.text) then [Touch(target.id)]
      else [Update(target.id, draft.text)] + Deletes(same[1..])
    else if candidates != [] && candidates[0].score >= 0.9 then [Touch(candidates[0].entry.id)]
    else if candidates != [] && candidates[0].score >= 0.65 then [Update(candidates[0].entry.id, draft.text)]
    else [Insert]
  }

  // ----- Validating -----

  function Inserts(actions: seq<Action>): nat {
    if actions == [] then 0 else (if actions[0].Insert? then 1 else 0) + Inserts(actions[1..])
  }

  predicate IsCandidate(id: string, candidates: seq<Candidate>) {
    exists i | 0 <= i < |candidates| :: candidates[i].entry.id == id
  }

  predicate ValidAction(a: Action, candidates: seq<Candidate>) {
    match a
    case Touch(id) => IsCandidate(id, candidates)
    case Delete(id) => IsCandidate(id, candidates)
    case Update(id, text) => IsCandidate(id, candidates) && ValidText(text)
    case Insert => true
  }

  /** `validate_actions`. */
  predicate Validated(actions: seq<Action>, candidates: seq<Candidate>) {
    actions != [] && Inserts(actions) <= 1 && forall i | 0 <= i < |actions| :: ValidAction(actions[i], candidates)
  }

  // ----- Applying -----

  function FindEntry(entries: seq<Entry>, id: string): (i: nat)
    ensures i <= |entries|
    ensures i < |entries| ==> entries[i].id == id
    ensures forall j | 0 <= j < i :: entries[j].id != id
  {
    if entries == [] || entries[0].id == id then 0 else 1 + FindEntry(entries[1..], id)
  }

  function Edit(e: Entry, a: Action, draft: Entry, now: Time): Entry {
    match a
    case Touch(_) => e.(updatedAt := now, lastAccessedAt := Some(now))
    case Update(_, text) =>
      e.(text := Trim(text), subject := draft.subject, tags := draft.tags, updatedAt := now, lastAccessedAt := Some(now))
    case Delete(_) => e.(active := false, updatedAt := now)
    case Insert => e
  }

  /** The new entry takes the id the manifest announces. */
  function Inserted(scope: Scope, nextId: nat, draft: Entry, now: Time): Entry {
    draft.(id := MakeId(scope, nextId), createdAt := now, updatedAt := now)
  }

  /** `nextId` is what `allocate_id` would use: the manifest's, or computed from the entries. */
  function ApplyAction(entries: seq<Entry>, scope: Scope, manifest: Option<nat>, draft: Entry, a: Action, now: Time)
    : seq<Entry>
  {
    if a.Insert? then entries + [Inserted(scope, manifest.UnwrapOr(NextNumber(entries)), draft, now)]
    else
      var at := FindEntry(entries, a.id);
      if at < |entries| then entries[at := Edit(entries[at], a, draft, now)] else entries
  }

  function ApplyActions(entries: seq<Entry>, scope: Scope, manifest: Option<nat>, draft: Entry, actions: seq<Action>,
                        now: Time): seq<Entry>
    decreases |actions|
  {
    if actions == [] then entries
    else
      var last := |actions| - 1;
      ApplyAction(ApplyActions(entries, scope, manifest, draft, actions[..last], now), scope, manifest, draft,
                  actions[last], now)
  }

  /** `apply_actions`: the entry list edited in place, action by action. */
  method ApplyInPlace(start: seq<Entry>, scope: Scope, manifest: Option<nat>, draft: Entry, actions: seq<Action>,
                      now: Time) returns (entries: seq<Entry>)
    ensures entries == ApplyActions(start, scope, manifest, draft, actions, now)
  {
    hide MakeId, NextNumber, Edit;
    entries := start;
    var i := 0;
    while i < |actions|
      invariant 0 <= i <= |actions|
      invariant entries == ApplyActions(start, scope, manifest, draft, actions[..i], now)
    {
      ghost var before := entries;
      match actions[i] {
        case Insert =>
          var next := if manifest.Some? then manifest.value else NextNumber(entries);
          entries := entries + [draft.(id := MakeId(scope, next), createdAt := now, updatedAt := now)];
        case _ =>
          var at := FindEntry(entries, actions[i].id);
          if at < |entries| {
            entries := entries[at := Edit(entries[at], actions[i], draft, now)];
          }
      }
      assert entries == ApplyAction(before, scope, manifest, draft, actions[i], now);
      ApplyOneMore(start, scope, manifest, draft, actions, i, now);
      i := i + 1;
    }
    assert actions[..i] == actions;
  }

  lemma {:induction false} ApplyOneMore(start: seq<Entry>, scope: Scope, manifest: Option<nat>, draft: Entry,
                                        actions: seq<Action>, i: nat,
                     now: Time)
    requires i < |actions|
    ensures ApplyActions(start, scope, manifest, draft, actions[..i + 1], now)
         == ApplyAction(ApplyActions(start, scope, manifest, draft, actions[..i], now), scope, manifest, draft,
                        actions[i], now)
  {
    hide ApplyAction;
    assert actions[..i + 1][..i] == actions[..i];
  }

  // ----- The local decision is always valid -----

  lemma {:induction false} InsertByTimeKeeps(c: Candidate, sorted: seq<Candidate>)
    ensures multiset(InsertByTime(c, sorted)) == multiset{c} + multiset(sorted)
    ensures |InsertByTime(c, sorted)| == |sorted| + 1
  {
    if sorted != [] && c.entry.updatedAt < sorted[0].entry.updatedAt {
      InsertByTimeKeeps(c, sorted[1..]);
      assert sorted == [sorted[0]] + sorted[1..];
    }
  }

  lemma {:induction false} NewestFirstKeeps(candidates: seq<Candidate>)
    ensures multiset(NewestFirst(candidates)) == multiset(candidates)
    ensures |NewestFirst(candidates)| == |candidates|
  {
    if candidates != [] {
      NewestFirstKeeps(candidates[1..]);
      InsertByTimeKeeps(candidates[0], NewestFirst(candidates[1..]));
      assert candidates == [candidates[0]] + candidates[1..];
    }
  }

  predicate SortedByTime(candidates: seq<Candidate>) {
    forall i, j | 0 <= i < j < |candidates| :: candidates[i].entry.updatedAt >= candidates[j].entry.updatedAt
  }

  lemma {:induction false} InsertByTimeSorts(c: Candidate, sorted: seq<Candidate>)
    requires SortedByTime(sorted)
    ensures SortedByTime(InsertByTime(c, sorted))
  {
    if sorted != [] && c.entry.updatedAt < sorted[0].entry.updatedAt {
      var rest := sorted[1..];
      assert SortedByTime(rest);
      InsertByTimeSorts(c, rest);
      InsertByTimeKeeps(c, rest);
      forall i | 0 <= i < |InsertByTime(c, rest)|
        ensures sorted[0].entry.updatedAt >= InsertByTime(c, rest)[i].entry.updatedAt
      {
        assert InsertByTime(c, rest)[i] in multiset(InsertByTime(c, rest));
      }
    }
  }

  lemma {:induction false} NewestFirstSorts(candidates: seq<Candidate>)
    ensures SortedByTime(NewestFirst(candidates))
  {
    if candidates != [] {
      NewestFirstSorts(candidates[1..]);
      InsertByTimeSorts(candidates[0], NewestFirst(candidates[1..]));
    }
  }

  /** The sorted same-subject candidates are exactly the same-subject candidates. */
  lemma {:induction false} SameSorted(codec: Codec, draft: Entry, candidates: seq<Candidate>)
    ensures var same := NewestFirst(SameSubjects(codec, draft, candidates));
            && SortedByTime(same)
            && (forall c :: c in same <==> c in candidates && SameSubject(codec, draft, c))
  {
    var found := SameSubjects(codec, draft, candidates);
    NewestFirstKeeps(found);
    NewestFirstSorts(found);
    forall c
      ensures c in NewestFirst(found) <==> c in candidates && SameSubject(codec, draft, c)
    {
      assert c in NewestFirst(found) <==> c in multiset(NewestFirst(found));
      assert c in found <==> c in multiset(found);
      if c in found {
        var i :| 0 <= i < |found| && found[i] == c;
      }
    }
  }

  lemma {:induction false} UpdateAndDeletesValid(target: string, text: string, stale: seq<Candidate>,
                                                 candidates: seq<Candidate>)
    requires ValidText(text) && IsCandidate(target, candidates)
    requires forall i | 0 <= i < |stale| :: IsCandidate(stale[i].entry.id, candidates)
    ensures Validated([Update(target, text)] + Deletes(stale), candidates)
  {
    hide ValidText;
    var actions := [Update(target, text)] + Deletes(stale);
    NoInserts(Deletes(stale));
    assert actions[1..] == Deletes(stale);
    forall i | 0 <= i < |actions|
      ensures ValidAction(actions[i], candidates)
    {
      if i > 0 {
        assert actions[i] == Delete(stale[i - 1].entry.id);
      }
    }
  }

  /** Whatever the candidates are, the local decision passes validation. */
  lemma {:induction false} LocalDecisionValid(codec: Codec, draft: Entry, candidates: seq<Candidate>)
    requires ValidText(draft.text)
    ensures Validated(LocalDecision(codec, draft, candidates), candidates)
  {
    hide ValidText, SameSubjects, NewestFirst;
    SameSorted(codec, draft, candidates);
    var same := NewestFirst(SameSubjects(codec, draft, candidates));
    forall i | 0 <= i < |same|
      ensures IsCandidate(same[i].entry.id, candidates)
    {
      assert same[i] in candidates;
    }
    if same != [] {
      UpdateAndDeletesValid(same[0].entry.id, draft.text, same[1..], candidates);
    } else {
      if candidates != [] {
        assert IsCandidate(candidates[0].entry.id, candidates);
      }
      SingleValid(LocalDecision(codec, draft, candidates)[0], candidates);
    }
    if same != [] && codec.normalize(same[0].entry.text) == codec.normalize(draft.text) {
      SingleValid(Touch(same[0].entry.id), candidates);
    }
  }

  lemma {:induction false} SingleValid(a: Action, candidates: seq<Candidate>)
    requires ValidAction(a, candidates)
    ensures Validated([a], candidates)
  {
    assert [a][1..] == [];
  }

  lemma {:induction false} NoInserts(actions: seq<Action>)
    requires forall i | 0 <= i < |actions| :: !actions[i].Insert?
    ensures Inserts(actions) == 0
  {
    if actions != [] {
      NoInserts(actions[1..]);
    }
  }

  // ----- What applying does -----

  /** One entry under the actions that name it, in order. */
  function EditAll(e: Entry, actions: seq<Action>, draft: Entry, now: Time): (r: Entry)
    ensures r.id == e.id
    decreases |actions|
  {
    if actions == [] then e
    else
      var last := actions[|actions| - 1];
      var before := EditAll(e, actions[..|actions| - 1], draft, now);
      if !last.Insert? && last.id == e.id then Edit(before, last, draft, now) else before
  }

  function EditEach(entries: seq<Entry>, actions: seq<Action>, draft: Entry, now: Time): (r: seq<Entry>)
    ensures |r| == |entries|
    ensures forall i | 0 <= i < |r| :: r[i].id == entries[i].id
  {
    seq(|entries|, i requires 0 <= i < |entries| => EditAll(entries[i], actions, draft, now))
  }

  /** Every action names a stored entry, or inserts. */
  predicate NamesStored(entries: seq<Entry>, actions: seq<Action>) {
    forall k | 0 <= k < |actions| && !actions[k].Insert? :: FindEntry(entries, actions[k].id) < |entries|
  }

  lemma {:induction false} MaxNumberOfIds(a: seq<Entry>, b: seq<Entry>)
    requires |a| == |b| && forall i | 0 <= i < |a| :: a[i].id == b[i].id
    ensures MaxNumber(a) == MaxNumber(b)
    decreases |a|
  {
    if a != [] {
      MaxNumberOfIds(a[..|a| - 1], b[..|b| - 1]);
    }
  }

  lemma {:induction false} InsertsOfPrefix(actions: seq<Action>, last: Action)
    ensures Inserts(actions + [last]) == Inserts(actions) + if last.Insert? then 1 else 0
  {
    if actions == [] {
      assert [last][1..] == [] && actions + [last] == [last];
    } else {
      InsertsOfPrefix(actions[1..], last);
      assert (actions + [last])[1..] == actions[1..] + [last];
    }
  }

  function NewEntries(entries: seq<Entry>, scope: Scope, manifest: Option<nat>, draft: Entry, actions: seq<Action>,
                      now: Time): seq<Entry>
  {
    if Inserts(actions) == 0 then []
    else [Inserted(scope, manifest.UnwrapOr(NextNumber(entries)), draft, now)]
  }

  /** An action that names a stored entry edits exactly that entry. */
  lemma {:induction false} EditStep(entries: seq<Entry>, edited: seq<Entry>, tail: seq<Entry>, a: Action, scope: Scope,
                 manifest: Option<nat>, draft: Entry, now: Time)
    requires DistinctIds(entries) && !a.Insert? && FindEntry(entries, a.id) < |entries|
    requires |edited| == |entries| && forall i | 0 <= i < |edited| :: edited[i].id == entries[i].id
    ensures var after := ApplyAction(edited + tail, scope, manifest, draft, a, now);
            && |after| == |edited| + |tail| && after[|edited|..] == tail
            && forall i | 0 <= i < |edited| ::
                 after[i] == if edited[i].id == a.id then Edit(edited[i], a, draft, now) else edited[i]
  {
    hide Edit;
    var at := FindEntry(entries, a.id);
    var all := edited + tail;
    forall j | 0 <= j < at
      ensures all[j].id != a.id
    {
      assert all[j] == edited[j];
    }
    assert all[at].id == a.id;
    assert FindEntry(all, a.id) == at;
    assert all[at := Edit(all[at], a, draft, now)][|edited|..] == tail;
  }

  /**
   The result of applying, said entry by entry: each stored entry under its own actions, then the inserted one.
   Entries no action names are untouched.
   */
  lemma {:induction false} AppliedEntries(entries: seq<Entry>, scope: Scope, manifest: Option<nat>, draft: Entry,
                                          actions: seq<Action>, now: Time)
    requires DistinctIds(entries) && NamesStored(entries, actions) && Inserts(actions) <= 1
    ensures ApplyActions(entries, scope, manifest, draft, actions, now)
         == EditEach(entries, actions, draft, now) + NewEntries(entries, scope, manifest, draft, actions, now)
    decreases |actions|
  {
    if actions == [] {
      assert EditEach(entries, actions, draft, now) == entries;
      assert entries + [] == entries;
    } else {
      var before, last := actions[..|actions| - 1], actions[|actions| - 1];
      assert before + [last] == actions;
      InsertsOfPrefix(before, last);
      forall k | 0 <= k < |before| && !before[k].Insert?
        ensures FindEntry(entries, before[k].id) < |entries|
      {
        assert before[k] == actions[k];
      }
      AppliedEntries(entries, scope, manifest, draft, before, now);
      if last.Insert? {
        AppliedInsert(entries, scope, manifest, draft, before, now);
      } else {
        AppliedEdit(entries, scope, manifest, draft, before, last, now);
      }
    }
  }

  lemma {:induction false} AppliedInsert(entries: seq<Entry>, scope: Scope, manifest: Option<nat>, draft: Entry,
                                         before: seq<Action>,
                      now: Time)
    requires Inserts(before) == 0 && Inserts(before + [Insert]) == 1
    ensures ApplyAction(EditEach(entries, before, draft, now) + NewEntries(entries, scope, manifest, draft, before, now),
                        scope, manifest, draft, Insert, now)
         == EditEach(entries, before + [Insert], draft, now)
            + NewEntries(entries, scope, manifest, draft, before + [Insert], now)
  {
    hide Inserted, MaxNumber, Edit;
    var edited := EditEach(entries, before, draft, now);
    MaxNumberOfIds(edited, entries);
    assert (before + [Insert])[..|before|] == before;
    assert EditEach(entries, before + [Insert], draft, now) == edited;
    assert edited + [] == edited;
  }

  lemma {:induction false} AppliedEdit(entries: seq<Entry>, scope: Scope, manifest: Option<nat>, draft: Entry,
                                       before: seq<Action>,
                    last: Action, now: Time)
    requires DistinctIds(entries) && !last.Insert? && FindEntry(entries, last.id) < |entries|
    requires Inserts(before + [last]) == Inserts(before)
    ensures ApplyAction(EditEach(entries, before, draft, now) + NewEntries(entries, scope, manifest, draft, before, now),
                        scope, manifest, draft, last, now)
         == EditEach(entries, before + [last], draft, now)
            + NewEntries(entries, scope, manifest, draft, before + [last], now)
  {
    hide Inserted, MaxNumber, Edit, ApplyAction, DistinctIds, FindEntry, EditEach, Inserts;
    var edited, more := EditEach(entries, before, draft, now), EditEach(entries, before + [last], draft, now);
    var tail := NewEntries(entries, scope, manifest, draft, before, now);
    EditStep(entries, edited, tail, last, scope, manifest, draft, now);
    var after := ApplyAction(edited + tail, scope, manifest, draft, last, now);
    forall i | 0 <= i < |entries|
      ensures after[i] == more[i]
    {
      EditEachMore(entries, before, last, draft, now, i);
    }
    assert after[..|entries|] == more;
    assert after == after[..|entries|] + after[|entries|..];
  }

  lemma {:induction false} EditEachMore(entries: seq<Entry>, before: seq<Action>, last: Action, draft: Entry,
                                        now: Time, i: nat)
    requires i < |entries| && !last.Insert?
    ensures var e := EditEach(entries, before, draft, now)[i];
            EditEach(entries, before + [last], draft, now)[i] == if e.id == last.id then Edit(e, last, draft, now) else e
  {
    hide Edit;
    assert (before + [last])[..|before|] == before;
  }

  predicate Named(actions: seq<Action>, id: string) {
    exists k | 0 <= k < |actions| :: !actions[k].Insert? && actions[k].id == id
  }

  predicate Deleted(actions: seq<Action>, id: string) {
    exists k | 0 <= k < |actions| :: actions[k] == Delete(id)
  }

  /** What the actions can do to one entry: nothing unless they name it, and only a delete deactivates it. */
  lemma {:induction false} EditAllMeaning(e: Entry, actions: seq<Action>, draft: Entry, now: Time)
    ensures !Named(actions, e.id) ==> EditAll(e, actions, draft, now) == e
    ensures EditAll(e, actions, draft, now).active <==> e.active && !Deleted(actions, e.id)
    ensures var r := EditAll(e, actions, draft, now);
            r.scope == e.scope && r.createdAt == e.createdAt && r.source == e.source
    decreases |actions|
  {
    if actions != [] {
      var before, last := actions[..|actions| - 1], actions[|actions| - 1];
      hide Named, Deleted, Trim;
      EditAllMeaning(e, before, draft, now);
      NamedMore(actions, e.id);
    }
  }

  lemma {:induction false} NamedMore(actions: seq<Action>, id: string)
    requires actions != []
    ensures var before, last := actions[..|actions| - 1], actions[|actions| - 1];
            && (Named(actions, id) <==> Named(before, id) || (!last.Insert? && last.id == id))
            && (Deleted(actions, id) <==> Deleted(before, id) || last == Delete(id))
  {
    var before := actions[..|actions| - 1];
    assert forall k | 0 <= k < |before| :: actions[k] == before[k];
    if Named(before, id) {
      var k :| 0 <= k < |before| && !before[k].Insert? && before[k].id == id;
      assert actions[k] == before[k];
    }
    if Deleted(before, id) {
      var k :| 0 <= k < |before| && before[k] == Delete(id);
      assert actions[k] == Delete(id);
    }
  }

  // ----- Counting -----

  function DeletedIds(actions: seq<Action>): set<string> {
    set k | 0 <= k < |actions| && actions[k].Delete? :: actions[k].id
  }

  lemma {:induction false} CountWithout(entries: seq<Entry>, after: seq<Entry>, gone: set<string>)
    requires DistinctIds(entries) && |after| == |entries|
    requires forall i | 0 <= i < |entries| :: entries[i].active
    requires forall i | 0 <= i < |after| :: after[i].active <==> entries[i].id !in gone
    requires forall id | id in gone :: exists i | 0 <= i < |entries| :: entries[i].id == id
    ensures |Actives(after)| + |gone| == |entries|
  {
    if entries == [] {
      assert gone == {};
    } else {
      var rest, more, fewer := entries[1..], after[1..], gone - {entries[0].id};
      assert DistinctIds(rest) by {
        assert forall i | 0 <= i < |rest| :: rest[i] == entries[i + 1];
      }
      forall i | 0 <= i < |more|
        ensures more[i].active <==> rest[i].id !in fewer
      {
        assert more[i] == after[i + 1] && rest[i] == entries[i + 1];
      }
      forall id | id in fewer
        ensures exists i | 0 <= i < |rest| :: rest[i].id == id
      {
        var i :| 0 <= i < |entries| && entries[i].id == id;
        assert rest[i - 1].id == id;
      }
      CountWithout(rest, more, fewer);
    }
  }

  /** Active entries after = active before + inserts - distinct deletes. */
  lemma {:induction false} AppliedCount(entries: seq<Entry>, scope: Scope, manifest: Option<nat>, draft: Entry,
                                        actions: seq<Action>,
                     now: Time)
    requires DistinctIds(entries) && NamesStored(entries, actions) && Inserts(actions) <= 1
    requires draft.active && forall i | 0 <= i < |entries| :: entries[i].active
    ensures |Actives(ApplyActions(entries, scope, manifest, draft, actions, now))| + |DeletedIds(actions)|
         == |entries| + Inserts(actions)
  {
    var edited := EditEach(entries, actions, draft, now);
    var tail := NewEntries(entries, scope, manifest, draft, actions, now);
    AppliedEntries(entries, scope, manifest, draft, actions, now);
    ActivesConcat(edited, tail);
    forall i | 0 <= i < |edited|
      ensures edited[i].active <==> entries[i].id !in DeletedIds(actions)
    {
      EditAllMeaning(entries[i], actions, draft, now);
    }
    forall id | id in DeletedIds(actions)
      ensures exists i | 0 <= i < |entries| :: entries[i].id == id
    {
      var k :| 0 <= k < |actions| && actions[k].Delete? && actions[k].id == id;
      assert entries[FindEntry(entries, id)].id == id;
    }
    CountWithout(entries, edited, DeletedIds(actions));
    assert |Actives(tail)| == |tail|;
  }

  // ----- One survivor per subject -----

  predicate DistinctCandidates(candidates: seq<Candidate>) {
    forall i, j | 0 <= i < j < |candidates| :: candidates[i].entry.id != candidates[j].entry.id
  }

  predicate Absent(id: string, candidates: seq<Candidate>) {
    forall i | 0 <= i < |candidates| :: candidates[i].entry.id != id
  }

  lemma {:induction false} SameSubjectsDistinct(codec: Codec, draft: Entry, candidates: seq<Candidate>, id: string)
    requires DistinctCandidates(candidates)
    ensures DistinctCandidates(SameSubjects(codec, draft, candidates))
    ensures Absent(id, candidates) ==> Absent(id, SameSubjects(codec, draft, candidates))
  {
    hide SameSubject;
    if candidates != [] {
      var rest := candidates[1..];
      assert DistinctCandidates(rest) by {
        assert forall i | 0 <= i < |rest| :: rest[i] == candidates[i + 1];
      }
      SameSubjectsDistinct(codec, draft, rest, id);
      SameSubjectsDistinct(codec, draft, rest, candidates[0].entry.id);
      assert Absent(candidates[0].entry.id, rest);
      assert Absent(id, candidates) ==> Absent(id, rest);
    }
  }

  lemma {:induction false} InsertDistinct(c: Candidate, sorted: seq<Candidate>, id: string)
    requires DistinctCandidates(sorted) && Absent(c.entry.id, sorted)
    ensures DistinctCandidates(InsertByTime(c, sorted))
    ensures c.entry.id != id && Absent(id, sorted) ==> Absent(id, InsertByTime(c, sorted))
  {
    if sorted != [] && c.entry.updatedAt < sorted[0].entry.updatedAt {
      var rest := sorted[1..];
      assert DistinctCandidates(rest) && Absent(c.entry.id, rest) && Absent(sorted[0].entry.id, rest);
      InsertDistinct(c, rest, id);
      InsertDistinct(c, rest, sorted[0].entry.id);
      assert sorted[0].entry.id != c.entry.id;
      assert Absent(id, sorted) ==> Absent(id, rest) && sorted[0].entry.id != id;
    }
  }

  lemma {:induction false} NewestDistinct(candidates: seq<Candidate>, id: string)
    requires DistinctCandidates(candidates)
    ensures DistinctCandidates(NewestFirst(candidates))
    ensures Absent(id, candidates) ==> Absent(id, NewestFirst(candidates))
  {
    if candidates != [] {
      var first, rest := candidates[0], candidates[1..];
      assert DistinctCandidates(rest) && Absent(first.entry.id, rest);
      NewestDistinct(rest, id);
      NewestDistinct(rest, first.entry.id);
      InsertDistinct(first, NewestFirst(rest), id);
      assert Absent(id, candidates) ==> Absent(id, rest) && first.entry.id != id;
    }
  }

  lemma {:induction false} EditByFirst(e: Entry, a: Action, rest: seq<Action>, draft: Entry, now: Time)
    requires !a.Insert? && a.id == e.id && !Named(rest, e.id)
    ensures EditAll(e, [a] + rest, draft, now) == Edit(e, a, draft, now)
    decreases |rest|
  {
    var all := [a] + rest;
    if rest == [] {
      assert all[..0] == [] && all[0] == a && all == [a];
    } else {
      var before := rest[..|rest| - 1];
      assert all[..|all| - 1] == [a] + before;
      assert forall k | 0 <= k < |before| :: before[k] == rest[k];
      EditByFirst(e, a, before, draft, now);
      assert !(!rest[|rest| - 1].Insert? && rest[|rest| - 1].id == e.id);
    }
  }

  /** The same-subject candidates, newest first, and whether the newest says something else than the draft. */
  function Rivals(codec: Codec, draft: Entry, candidates: seq<Candidate>): seq<Candidate> {
    NewestFirst(SameSubjects(codec, draft, candidates))
  }

  predicate Differs(codec: Codec, draft: Entry, candidates: seq<Candidate>) {
    var rivals := Rivals(codec, draft, candidates);
    rivals != [] && codec.normalize(rivals[0].entry.text) != codec.normalize(draft.text)
  }

  lemma {:induction false} RivalsDistinct(codec: Codec, draft: Entry, candidates: seq<Candidate>)
    requires DistinctCandidates(candidates)
    ensures DistinctCandidates(Rivals(codec, draft, candidates))
  {
    SameSubjectsDistinct(codec, draft, candidates, "");
    NewestDistinct(SameSubjects(codec, draft, candidates), "");
  }

  /** One entry after a decision that overwrites the newest rival and deletes the others. */
  lemma {:induction false} RivalOutcome(e: Entry, rivals: seq<Candidate>, draft: Entry, now: Time)
    requires rivals != [] && DistinctCandidates(rivals) && e.active
    ensures var actions := [Update(rivals[0].entry.id, draft.text)] + Deletes(rivals[1..]);
            var r := EditAll(e, actions, draft, now);
            if e.id == rivals[0].entry.id then
              r.active && r.text == Trim(draft.text) && r.subject == draft.subject && r.tags == draft.tags
              && r.updatedAt == now
            else if Absent(e.id, rivals) then r == e
            else !r.active
  {
    hide Trim, EditAll, DistinctCandidates;
    var first, rest := Update(rivals[0].entry.id, draft.text), Deletes(rivals[1..]);
    var actions := [first] + rest;
    EditAllMeaning(e, actions, draft, now);
    NamedByRivals(rivals, draft.text, e.id);
    if e.id == rivals[0].entry.id {
      EditByFirst(e, first, rest, draft, now);
    }
  }

  /** Which entries the decision names and deletes. */
  lemma {:induction false} NamedByRivals(rivals: seq<Candidate>, text: string, id: string)
    requires rivals != [] && DistinctCandidates(rivals)
    ensures var rest := Deletes(rivals[1..]);
            var actions := [Update(rivals[0].entry.id, text)] + rest;
            && (Named(actions, id) <==> !Absent(id, rivals))
            && (Deleted(actions, id) <==> !Absent(id, rivals) && id != rivals[0].entry.id)
            && (id == rivals[0].entry.id ==> !Named(rest, id))
  {
    hide Deletes;
    var rest := Deletes(rivals[1..]);
    var actions := [Update(rivals[0].entry.id, text)] + rest;
    RivalActions(rivals, text);
    if !Absent(id, rivals) {
      var i :| 0 <= i < |rivals| && rivals[i].entry.id == id;
      assert !actions[i].Insert? && actions[i].id == id;
      assert i > 0 ==> actions[i] == Delete(id);
    }
  }

  lemma {:induction false} RivalActions(rivals: seq<Candidate>, text: string)
    requires rivals != []
    ensures var rest := Deletes(rivals[1..]);
            var actions := [Update(rivals[0].entry.id, text)] + rest;
            && |actions| == |rivals| && actions[0] == Update(rivals[0].entry.id, text)
            && (forall k | 0 < k < |rivals| :: actions[k] == Delete(rivals[k].entry.id))
            && (forall k | 0 <= k < |rest| :: rest[k] == Delete(rivals[k + 1].entry.id))
  {
  }

  /**
   When the newest candidate of the draft's subject differs in text, exactly one candidate of that subject
   survives the local decision: the newest, and it holds the draft's text. Nothing else changes.
   */
  lemma {:induction false} OneSurvivor(codec: Codec, entries: seq<Entry>, scope: Scope, manifest: Option<nat>,
                                       draft: Entry,
                    candidates: seq<Candidate>, now: Time)
    requires DistinctIds(entries) && forall i | 0 <= i < |entries| :: entries[i].active
    requires DistinctCandidates(candidates) && forall i | 0 <= i < |candidates| :: candidates[i].entry in entries
    requires StoredText(draft.text) && Differs(codec, draft, candidates)
    ensures var rivals := Rivals(codec, draft, candidates);
            var after := ApplyActions(entries, scope, manifest, draft, LocalDecision(codec, draft, candidates), now);
            && |after| == |entries|
            && forall i | 0 <= i < |entries| ::
                 if entries[i].id == rivals[0].entry.id then
                   after[i].active && after[i].text == draft.text && after[i].subject == draft.subject
                   && after[i].tags == draft.tags && after[i].updatedAt == now
                 else if Absent(entries[i].id, rivals) then after[i] == entries[i]
                 else !after[i].active
  {
    hide StoredText, SameSubjects, NewestFirst;
    var rivals := Rivals(codec, draft, candidates);
    var actions := [Update(rivals[0].entry.id, draft.text)] + Deletes(rivals[1..]);
    assert LocalDecision(codec, draft, candidates) == actions;
    RivalsDistinct(codec, draft, candidates);
    SameSorted(codec, draft, candidates);
    RivalsStored(entries, candidates, rivals);
    RivalActionsStored(entries, rivals, draft.text);
    AppliedEntries(entries, scope, manifest, draft, actions, now);
    forall i | 0 <= i < |entries|
      ensures Trim(draft.text) == draft.text
      ensures var r := EditAll(entries[i], actions, draft, now);
              if entries[i].id == rivals[0].entry.id then
                r.active && r.text == Trim(draft.text) && r.subject == draft.subject
                && r.tags == draft.tags && r.updatedAt == now
              else if Absent(entries[i].id, rivals) then r == entries[i]
              else !r.active
    {
      TrimStored(draft.text);
      RivalOutcome(entries[i], rivals, draft, now);
    }
  }

  lemma {:induction false} TrimStored(text: string)
    requires StoredText(text)
    ensures Trim(text) == text
  {
  }

  lemma {:induction false} RivalsStored(entries: seq<Entry>, candidates: seq<Candidate>, rivals: seq<Candidate>)
    requires forall i | 0 <= i < |candidates| :: candidates[i].entry in entries
    requires forall c | c in rivals :: c in candidates
    ensures forall i | 0 <= i < |rivals| :: FindEntry(entries, rivals[i].entry.id) < |entries|
  {
    forall i | 0 <= i < |rivals|
      ensures FindEntry(entries, rivals[i].entry.id) < |entries|
    {
      assert rivals[i] in candidates;
      var k :| 0 <= k < |entries| && entries[k] == rivals[i].entry;
      assert entries[k].id == rivals[i].entry.id;
    }
  }

  lemma {:induction false} RivalActionsStored(entries: seq<Entry>, rivals: seq<Candidate>, text: string)
    requires rivals != [] && forall i | 0 <= i < |rivals| :: FindEntry(entries, rivals[i].entry.id) < |entries|
    ensures var actions := [Update(rivals[0].entry.id, text)] + Deletes(rivals[1..]);
            NamesStored(entries, actions) && Inserts(actions) == 0
  {
    var rest := Deletes(rivals[1..]);
    var actions := [Update(rivals[0].entry.id, text)] + rest;
    NoInserts(rest);
    assert actions[1..] == rest;
    forall k | 0 <= k < |actions|
      ensures actions[k].id == rivals[k].entry.id
    {
    }
  }
}
