/** Compaction of user memory: the local duplicate filter and the replacement list a model proposes. */
module MemoryCompaction {
  import opened Wrappers
  import opened Text
  import opened MemoryEntries

  // ----- The local filter -----

  /** The first active entry of every content hash. */
  function KeepFirsts(codec: Codec, entries: seq<Entry>, seen: set<string>): seq<Entry> {
    if entries == [] then []
    else
      var hash := HashOf(codec, entries[0]);
      if !entries[0].active || hash in seen then KeepFirsts(codec, entries[1..], seen)
      else [entries[0]] + KeepFirsts(codec, entries[1..], seen + {hash})
  }

  function Compact(codec: Codec, entries: seq<Entry>): seq<Entry> {
    KeepFirsts(codec, entries, {})
  }

  /** `compact_user_memory_entries`. */
  method CompactLoop(codec: Codec, entries: seq<Entry>) returns (output: seq<Entry>)
    ensures output == Compact(codec, entries)
  {
    output := [];
    var seen := {};
    var i := 0;
    while i < |entries|
      invariant 0 <= i <= |entries|
      invariant output + KeepFirsts(codec, entries[i..], seen) == Compact(codec, entries)
    {
      assert entries[i..][1..] == entries[i + 1..];
      if entries[i].active {
        var hash := HashOf(codec, entries[i]);
        if hash !in seen {
          seen := seen + {hash};
          output := output + [entries[i]];
        }
      }
      i := i + 1;
    }
    assert output + [] == output;
  }

  predicate HashesDistinct(codec: Codec, entries: seq<Entry>, seen: set<string>) {
    && (forall i | 0 <= i < |entries| :: entries[i].active && HashOf(codec, entries[i]) !in seen)
    && (forall i, j | 0 <= i < j < |entries| :: HashOf(codec, entries[i]) != HashOf(codec, entries[j]))
  }

  lemma {:induction false} KeepFirstsDistinct(codec: Codec, entries: seq<Entry>, seen: set<string>)
    ensures HashesDistinct(codec, KeepFirsts(codec, entries, seen), seen)
  {
    hide HashOf;
    if entries != [] {
      var hash := HashOf(codec, entries[0]);
      if !entries[0].active || hash in seen {
        KeepFirstsDistinct(codec, entries[1..], seen);
      } else {
        KeepFirstsDistinct(codec, entries[1..], seen + {hash});
      }
    }
  }

  lemma {:induction false} KeepFirstsFixed(codec: Codec, entries: seq<Entry>, seen: set<string>)
    requires HashesDistinct(codec, entries, seen)
    ensures KeepFirsts(codec, entries, seen) == entries
  {
    hide HashOf;
    if entries != [] {
      var rest := entries[1..];
      assert HashesDistinct(codec, rest, seen + {HashOf(codec, entries[0])}) by {
        assert forall i | 0 <= i < |rest| :: rest[i] == entries[i + 1];
      }
      KeepFirstsFixed(codec, rest, seen + {HashOf(codec, entries[0])});
    }
  }

  /** Compacting twice is compacting once: a second pass finds nothing to drop. */
  lemma {:induction false} CompactIdempotent(codec: Codec, entries: seq<Entry>)
    ensures Compact(codec, Compact(codec, entries)) == Compact(codec, entries)
  {
    KeepFirstsDistinct(codec, entries, {});
    KeepFirstsFixed(codec, Compact(codec, entries), {});
  }

  lemma {:induction false} KeepFirstsSome(codec: Codec, entries: seq<Entry>, seen: set<string>)
    ensures forall e | e in KeepFirsts(codec, entries, seen) :: e in entries && e.active
  {
    hide HashOf;
    if entries != [] {
      KeepFirstsSome(codec, entries[1..], seen);
      KeepFirstsSome(codec, entries[1..], seen + {HashOf(codec, entries[0])});
    }
  }

  lemma {:induction false} KeepFirstsHold(codec: Codec, entries: seq<Entry>, seen: set<string>, e: Entry)
    requires e in entries && e.active && HashOf(codec, e) !in seen
    ensures exists kept | kept in KeepFirsts(codec, entries, seen) :: HashOf(codec, kept) == HashOf(codec, e)
  {
    hide HashOf;
    var hash, kept := HashOf(codec, entries[0]), KeepFirsts(codec, entries, seen);
    var skipped := !entries[0].active || hash in seen;
    if !skipped && HashOf(codec, e) == hash {
      assert kept[0] in kept && HashOf(codec, kept[0]) == hash;
    } else {
      var wider := if skipped then seen else seen + {hash};
      assert e in entries[1..];
      KeepFirstsHold(codec, entries[1..], wider, e);
      var k :| k in KeepFirsts(codec, entries[1..], wider) && HashOf(codec, k) == HashOf(codec, e);
      assert k in kept;
    }
  }

  /**
   Only active entries are kept, and every active entry's hash is still there. Content is kept up to that hash:
   distinct texts that normalise alike, under one subject and the same tags, count as one.
   */
  lemma {:induction false} KeepFirstsCovers(codec: Codec, entries: seq<Entry>, seen: set<string>)
    ensures forall e | e in KeepFirsts(codec, entries, seen) :: e in entries && e.active
    ensures forall e | e in entries && e.active && HashOf(codec, e) !in seen ::
              exists kept | kept in KeepFirsts(codec, entries, seen) :: HashOf(codec, kept) == HashOf(codec, e)
  {
    hide HashOf, KeepFirsts;
    KeepFirstsSome(codec, entries, seen);
    forall e | e in entries && e.active && HashOf(codec, e) !in seen
      ensures exists kept | kept in KeepFirsts(codec, entries, seen) :: HashOf(codec, kept) == HashOf(codec, e)
    {
      KeepFirstsHold(codec, entries, seen, e);
    }
  }

  // ----- Rendered size -----

  function TagBytes(tags: seq<string>): nat {
    if tags == [] then 0 else 2 + Bytes(tags[0]) + TagBytes(tags[1..])
  }

  /** The bytes of one prompt line: `* [id] (subject) text #tag` and a line end. */
  function RenderedLine(e: Entry): nat {
    3 + Bytes(e.id) + 2
    + (if e.subject.Some? && e.subject.value != "" then 3 + Bytes(e.subject.value) else 0)
    + Bytes(Trim(e.text)) + TagBytes(e.tags) + 1
  }

  function RenderedBytes(entries: seq<Entry>): nat {
    if entries == [] then 0 else RenderedLine(entries[0]) + RenderedBytes(entries[1..])
  }

  /** Dropping entries never grows what is rendered or what is written. */
  lemma {:induction false} KeepFirstsShrinks(codec: Codec, entries: seq<Entry>, seen: set<string>)
    ensures RenderedBytes(KeepFirsts(codec, entries, seen)) <= RenderedBytes(Actives(entries))
    ensures LineBytes(codec, KeepFirsts(codec, entries, seen)) <= LineBytes(codec, Actives(entries))
    ensures |KeepFirsts(codec, entries, seen)| <= |Actives(entries)|
  {
    hide HashOf, RenderedLine;
    if entries != [] {
      var hash := HashOf(codec, entries[0]);
      var skipped := !entries[0].active || hash in seen;
      KeepFirstsShrinks(codec, entries[1..], if skipped then seen else seen + {hash});
      if entries[0].active {
        assert Actives(entries)[1..] == Actives(entries[1..]);
      } else {
        assert Actives(entries) == Actives(entries[1..]);
      }
      if !skipped {
        assert KeepFirsts(codec, entries, seen)[1..] == KeepFirsts(codec, entries[1..], seen + {hash});
      }
    }
  }

  lemma {:induction false} KeepFirstsKeepsIds(codec: Codec, entries: seq<Entry>, seen: set<string>)
    requires DistinctIds(entries)
    ensures DistinctIds(KeepFirsts(codec, entries, seen))
  {
    hide HashOf;
    if entries != [] {
      var hash, rest := HashOf(codec, entries[0]), entries[1..];
      var skipped := !entries[0].active || hash in seen;
      var wider := if skipped then seen else seen + {hash};
      KeepFirstsKeepsIds(codec, rest, wider);
      if !skipped {
        KeepFirstsCovers(codec, rest, wider);
        OtherIds(entries[0], rest, KeepFirsts(codec, rest, wider));
      }
    }
  }

  lemma {:induction false} OtherIds(first: Entry, rest: seq<Entry>, kept: seq<Entry>)
    requires forall i | 0 <= i < |rest| :: rest[i].id != first.id
    requires forall e | e in kept :: e in rest
    ensures forall i | 0 <= i < |kept| :: kept[i].id != first.id
  {
    forall i | 0 <= i < |kept|
      ensures kept[i].id != first.id
    {
      assert kept[i] in rest;
    }
  }

  // ----- Replacement entries proposed by a model -----

  datatype Proposed = Proposed(id: Option<string>, subject: Option<string>, text: string, tags: seq<string>)

  /** The loop state of `build_user_compaction_entries`. */
  datatype Build = Build(nextId: nat, seenIds: set<string>, seenHashes: set<string>, output: seq<Entry>)

  function FindActive(entries: seq<Entry>, id: string): (e: Option<Entry>)
    ensures e.Some? ==> e.value in entries && e.value.id == id && e.value.active
    ensures e.None? ==> forall i | 0 <= i < |entries| :: entries[i].active ==> entries[i].id != id
  {
    if entries == [] then None
    else
      var later := FindActive(entries[1..], id);
      if later.Some? then later else if entries[0].active && entries[0].id == id then Some(entries[0]) else None
  }

  /** The first number at or above `n` whose id is not taken. At most one per taken id is skipped. */
  function FreeNumber(n: nat, seen: set<string>): (m: nat)
    ensures m >= n && MakeId(User, m) !in seen
    ensures m <= n + |seen|
    decreases |seen|
  {
    if MakeId(User, n) !in seen then n
    else
      var m := FreeNumber(n + 1, seen - {MakeId(User, n)});
      assert MakeId(User, m) !in seen by {
        DifferentNumbers(n, m);
      }
      m
  }

  lemma {:induction false} DifferentNumbers(m: nat, n: nat)
    requires m != n
    ensures MakeId(User, m) != MakeId(User, n)
  {
    var a, b := MakeId(User, m), MakeId(User, n);
    assert a[2..] == Print(m) && b[2..] == Print(n);
    if a == b {
      PrintInjective(m, n);
    }
  }

  function Replacement(codec: Codec, entries: seq<Entry>, source: Source, item: Proposed, id: string,
                       now: Time): Entry {
    var existing := FindActive(entries, id);
    Entry(id, User, CleanSubject(item.subject), Trim(item.text), CleanTags(codec, item.tags),
          if existing.Some? then existing.value.createdAt else now,
          now,
          if existing.Some? then existing.value.lastAccessedAt else None,
          if existing.Some? then Source(existing.value.source.conversationId.Or(source.conversationId),
                                        existing.value.source.agentId.Or(source.agentId),
                                        existing.value.source.sessionType.Or(source.sessionType))
          else source,
          true)
  }

  function ProposedId(item: Proposed): Option<string> {
    if item.id.Some? && Trim(item.id.value) != "" then Some(Trim(item.id.value)) else None
  }

  function ProposedHash(codec: Codec, item: Proposed): string {
    ContentHash(codec, CleanSubject(item.subject), Trim(item.text), CleanTags(codec, item.tags))
  }

  /** One proposed item: rejected, skipped as a repetition, or appended under its own or a new id. */
  function BuildStep(codec: Codec, entries: seq<Entry>, source: Source, b: Build, item: Proposed, now: Time)
    : Result<Build, string>
  {
    if !ValidText(item.text) then Err("invalid text")
    else
      var hash, given := ProposedHash(codec, item), ProposedId(item);
      if hash in b.seenHashes then Ok(b)
      else if given.Some? then
        if ScopeOfId(given.value) != Some(User) then Err("invalid_user_memory_compaction_id")
        else if FindActive(entries, given.value).None? then Err("unknown_user_memory_compaction_id")
        else if given.value in b.seenIds then Err("duplicate_user_memory_compaction_id")
        else
          Ok(Build(b.nextId, b.seenIds + {given.value}, b.seenHashes + {hash},
                   b.output + [Replacement(codec, entries, source, item, given.value, now)]))
      else
        var n := FreeNumber(b.nextId, b.seenIds);
        Ok(Build(n + 1, b.seenIds + {MakeId(User, n)}, b.seenHashes + {hash},
                 b.output + [Replacement(codec, entries, source, item, MakeId(User, n), now)]))
  }

  function BuildFrom(codec: Codec, entries: seq<Entry>, source: Source, b: Build, items: seq<Proposed>, now: Time)
    : Result<Build, string>
    decreases |items|
  {
    if items == [] then Ok(b)
    else
      match BuildStep(codec, entries, source, b, items[0], now)
      case Err(e) => Err(e)
      case Ok(next) => BuildFrom(codec, entries, source, next, items[1..], now)
  }

  function BuildStart(entries: seq<Entry>): Build {
    Build(MaxNumber(entries) + 1, {}, {}, [])
  }

  /** `build_user_compaction_entries`: a loop over the proposed items that stops at the first bad one. */
  method BuildEntries(codec: Codec, entries: seq<Entry>, source: Source, items: seq<Proposed>, now: Time)
    returns (r: Result<Build, string>)
    ensures r == BuildFrom(codec, entries, source, BuildStart(entries), items, now)
  {
    hide BuildStep;
    var b := BuildStart(entries);
    var i := 0;
    while i < |items|
      invariant 0 <= i <= |items|
      invariant BuildFrom(codec, entries, source, b, items[i..], now)
             == BuildFrom(codec, entries, source, BuildStart(entries), items, now)
    {
      assert items[i..][1..] == items[i + 1..];
      var step := BuildStep(codec, entries, source, b, items[i], now);
      if step.Err? {
        return Err(step.error);
      }
      b := step.value;
      i := i + 1;
    }
    r := Ok(b);
  }

  // ----- Every model answer is safe -----

  /** A proposed entry keeps an active id with its creation time, or has a number above all input numbers. */
  predicate SafeEntry(entries: seq<Entry>, e: Entry, limit: nat) {
    && e.active && e.scope == User && StoredText(e.text)
    && var existing := FindActive(entries, e.id);
       if existing.Some? then ScopeOfId(e.id) == Some(User) && e.createdAt == existing.value.createdAt
       else exists n | MaxNumber(entries) < n < limit :: e.id == MakeId(User, n)
  }

  /** No id from `n` on is taken. */
  ghost predicate NumbersFree(n: nat, seen: set<string>) {
    forall m | n <= m < U64_LIMIT :: MakeId(User, m) !in seen
  }

  ghost predicate SafeBuild(codec: Codec, entries: seq<Entry>, b: Build) {
    && b.nextId > MaxNumber(entries)
    && NumbersFree(b.nextId, b.seenIds)
    && (forall i | 0 <= i < |b.output| :: SafeEntry(entries, b.output[i], b.nextId) && b.output[i].id in b.seenIds)
    && DistinctIds(b.output)
    && HashesDistinct(codec, b.output, {})
    && (forall i | 0 <= i < |b.output| :: HashOf(codec, b.output[i]) in b.seenHashes)
  }

  lemma {:induction false} TrimmedIsStored(text: string)
    requires ValidText(text)
    ensures StoredText(Trim(text))
  {
  }

  lemma {:induction false} SafeEntryGrows(entries: seq<Entry>, e: Entry, limit: nat, more: nat)
    requires SafeEntry(entries, e, limit) && limit <= more
    ensures SafeEntry(entries, e, more)
  {
    hide StoredText, MakeId;
  }

  lemma {:induction false} ReplacementSafe(codec: Codec, entries: seq<Entry>, source: Source, item: Proposed,
                                           id: string, now: Time,
                        limit: nat)
    requires ValidText(item.text)
    requires if FindActive(entries, id).Some? then ScopeOfId(id) == Some(User)
             else exists n | MaxNumber(entries) < n < limit :: id == MakeId(User, n)
    ensures SafeEntry(entries, Replacement(codec, entries, source, item, id, now), limit)
    ensures HashOf(codec, Replacement(codec, entries, source, item, id, now)) == ProposedHash(codec, item)
  {
    hide StoredText, MakeId, Trim, CleanSubject, CleanTags, ContentHash, ValidText;
    TrimmedIsStored(item.text);
  }

  lemma {:induction false} Appended(codec: Codec, entries: seq<Entry>, b: Build, e: Entry, limit: nat)
    requires SafeBuild(codec, entries, b) && b.nextId <= limit
    requires SafeEntry(entries, e, limit) && e.id !in b.seenIds && HashOf(codec, e) !in b.seenHashes
    requires forall m | limit <= m < U64_LIMIT :: MakeId(User, m) != e.id
    ensures SafeBuild(codec, entries,
                      Build(limit, b.seenIds + {e.id}, b.seenHashes + {HashOf(codec, e)}, b.output + [e]))
  {
    hide SafeEntry, HashOf, MaxNumber, MakeId;
    assert MaxNumber(entries) < limit;
    var output := b.output + [e];
    forall i | 0 <= i < |output|
      ensures SafeEntry(entries, output[i], limit)
    {
      if i < |b.output| {
        assert output[i] == b.output[i];
        SafeEntryGrows(entries, output[i], b.nextId, limit);
      }
    }
    forall i | 0 <= i < |output|
      ensures output[i].active
    {
      ActiveEntry(entries, output[i], limit);
    }
  }

  lemma {:induction false} ActiveEntry(entries: seq<Entry>, e: Entry, limit: nat)
    requires SafeEntry(entries, e, limit)
    ensures e.active
  {
  }

  lemma {:induction false} BuildStepSafe(codec: Codec, entries: seq<Entry>, source: Source, b: Build, item: Proposed,
                                         now: Time)
    requires SafeBuild(codec, entries, b) && b.nextId + 1 < U64_LIMIT
    ensures var step := BuildStep(codec, entries, source, b, item, now);
            step.Ok? ==> SafeBuild(codec, entries, step.value) && step.value.nextId <= b.nextId + 1
  {
    hide SafeBuild, MakeId, Replacement, ProposedHash, ValidText, MaxNumber, FindActive, ScopeOfId;
    var hash, given := ProposedHash(codec, item), ProposedId(item);
    if ValidText(item.text) && hash !in b.seenHashes {
      NextAbove(codec, entries, b);
      if given.Some? {
        if ScopeOfId(given.value) == Some(User) && FindActive(entries, given.value).Some? && given.value !in b.seenIds {
          ReplacementSafe(codec, entries, source, item, given.value, now, b.nextId);
          IdOfReplacement(codec, entries, source, item, given.value, now);
          KnownIdBelow(entries, given.value, b.nextId);
          Appended(codec, entries, b, Replacement(codec, entries, source, item, given.value, now), b.nextId);
        }
      } else {
        var n := b.nextId;
        assert FreeNumber(n, b.seenIds) == n;
        NewIdUnknown(entries, n);
        ReplacementSafe(codec, entries, source, item, MakeId(User, n), now, n + 1);
        IdOfReplacement(codec, entries, source, item, MakeId(User, n), now);
        forall m | n + 1 <= m < U64_LIMIT
          ensures MakeId(User, m) != MakeId(User, n)
        {
          DifferentNumbers(m, n);
        }
        Appended(codec, entries, b, Replacement(codec, entries, source, item, MakeId(User, n), now), n + 1);
      }
    }
  }

  lemma {:induction false} KnownIdBelow(entries: seq<Entry>, id: string, limit: nat)
    requires FindActive(entries, id).Some? && MaxNumber(entries) < limit
    ensures forall m | limit <= m < U64_LIMIT :: MakeId(User, m) != id
  {
    hide MakeId, MaxNumber;
    forall m | limit <= m < U64_LIMIT
      ensures MakeId(User, m) != id
    {
      FreshAbove(User, entries, m);
      var e := FindActive(entries, id).value;
      var i :| 0 <= i < |entries| && entries[i] == e;
    }
  }

  lemma {:induction false} NextAbove(codec: Codec, entries: seq<Entry>, b: Build)
    requires SafeBuild(codec, entries, b)
    ensures b.nextId > MaxNumber(entries) && NumbersFree(b.nextId, b.seenIds)
  {
  }

  lemma {:induction false} IdOfReplacement(codec: Codec, entries: seq<Entry>, source: Source, item: Proposed,
                                           id: string, now: Time)
    ensures Replacement(codec, entries, source, item, id, now).id == id
  {
  }

  lemma {:induction false} NewIdUnknown(entries: seq<Entry>, n: nat)
    requires MaxNumber(entries) < n < U64_LIMIT
    ensures FindActive(entries, MakeId(User, n)).None?
  {
    hide MakeId, MaxNumber;
    FreshAbove(User, entries, n);
  }

  lemma {:induction false} BuildFromSafe(codec: Codec, entries: seq<Entry>, source: Source, b: Build,
                                         items: seq<Proposed>, now: Time)
    requires SafeBuild(codec, entries, b) && b.nextId + |items| < U64_LIMIT
    ensures var built := BuildFrom(codec, entries, source, b, items, now);
            built.Ok? ==> SafeBuild(codec, entries, built.value) && built.value.nextId <= b.nextId + |items|
    decreases |items|
  {
    hide SafeBuild, BuildStep;
    if items != [] {
      BuildStepSafe(codec, entries, source, b, items[0], now);
      var step := BuildStep(codec, entries, source, b, items[0], now);
      if step.Ok? {
        BuildFromSafe(codec, entries, source, step.value, items[1..], now);
      }
    }
  }

  /**
   Whatever a model proposes, an accepted list has pairwise distinct ids and contents, valid texts, and every id
   is an active input id that keeps its creation time or is numbered above all input ids.
   */
  lemma {:induction false} AcceptedListSafe(codec: Codec, entries: seq<Entry>, source: Source, items: seq<Proposed>,
                                            now: Time)
    requires MaxNumber(entries) + 1 + |items| < U64_LIMIT
    ensures var built := BuildFrom(codec, entries, source, BuildStart(entries), items, now);
            built.Ok? ==>
              && DistinctIds(built.value.output)
              && HashesDistinct(codec, built.value.output, {})
              && built.value.nextId <= MaxNumber(entries) + 1 + |items|
              && forall i | 0 <= i < |built.value.output| ::
                   SafeEntry(entries, built.value.output[i], built.value.nextId)
  {
    hide MaxNumber, SafeEntry, HashOf;
    assert SafeBuild(codec, entries, BuildStart(entries));
    BuildFromSafe(codec, entries, source, BuildStart(entries), items, now);
  }

  // ----- And every well-formed answer is accepted -----

  /** Items a model may propose: valid texts, and ids that are active user ids, none twice. */
  predicate WellFormed(entries: seq<Entry>, items: seq<Proposed>) {
    && (forall i | 0 <= i < |items| ::
          && ValidText(items[i].text)
          && (ProposedId(items[i]).Some? ==>
                ScopeOfId(ProposedId(items[i]).value) == Some(User) && FindActive(entries, ProposedId(items[i]).value).Some?))
    && (forall i, j | 0 <= i < j < |items| && ProposedId(items[i]).Some? :: ProposedId(items[i]) != ProposedId(items[j]))
  }

  predicate Unused(items: seq<Proposed>, seen: set<string>) {
    forall i | 0 <= i < |items| && ProposedId(items[i]).Some? :: ProposedId(items[i]).value !in seen
  }

  /** The contents taken so far are exactly those of the output. */
  ghost predicate HashesMatch(codec: Codec, b: Build) {
    forall h :: h in b.seenHashes <==> exists e | e in b.output :: HashOf(codec, e) == h
  }

  lemma {:induction false} AcceptStep(codec: Codec, entries: seq<Entry>, source: Source, b: Build,
                                      items: seq<Proposed>, now: Time)
    requires items != [] && WellFormed(entries, items) && Unused(items, b.seenIds) && HashesMatch(codec, b)
    requires NumbersFree(b.nextId, b.seenIds) && MaxNumber(entries) < b.nextId < U64_LIMIT
    ensures var step := BuildStep(codec, entries, source, b, items[0], now);
            && step.Ok? && b.seenHashes <= step.value.seenHashes && ProposedHash(codec, items[0]) in step.value.seenHashes
            && WellFormed(entries, items[1..]) && Unused(items[1..], step.value.seenIds)
            && HashesMatch(codec, step.value)
  {
    hide MakeId, MaxNumber, ValidText, FindActive, ScopeOfId, ProposedId, Replacement, HashOf;
    var item, rest := items[0], items[1..];
    var hash, given := ProposedHash(codec, item), ProposedId(item);
    assert forall i | 0 <= i < |rest| :: rest[i] == items[i + 1];
    if hash !in b.seenHashes {
      var id := if given.Some? then given.value else MakeId(User, b.nextId);
      if given.None? {
        assert FreeNumber(b.nextId, b.seenIds) == b.nextId;
      }
      var e := Replacement(codec, entries, source, item, id, now);
      HashOfReplacement(codec, entries, source, item, id, now);
      HashesMatchAppend(codec, b, e);
      forall i | 0 <= i < |rest| && ProposedId(rest[i]).Some?
        ensures ProposedId(rest[i]).value != id
      {
        if given.None? {
          KnownIdBelow(entries, ProposedId(rest[i]).value, b.nextId);
        }
      }
    }
  }

  lemma {:induction false} HashOfReplacement(codec: Codec, entries: seq<Entry>, source: Source, item: Proposed,
                                             id: string, now: Time)
    ensures HashOf(codec, Replacement(codec, entries, source, item, id, now)) == ProposedHash(codec, item)
  {
  }

  lemma {:induction false} HashesMatchAppend(codec: Codec, b: Build, e: Entry)
    requires HashesMatch(codec, b)
    ensures HashesMatch(codec, b.(seenHashes := b.seenHashes + {HashOf(codec, e)}, output := b.output + [e]))
  {
    hide HashOf;
    var after := b.(seenHashes := b.seenHashes + {HashOf(codec, e)}, output := b.output + [e]);
    assert after.output[|b.output|] == e;
    forall h
      ensures h in after.seenHashes <==> exists x | x in after.output :: HashOf(codec, x) == h
    {
      if h in b.seenHashes {
        var x :| x in b.output && HashOf(codec, x) == h;
        assert x in after.output;
      } else if h == HashOf(codec, e) {
        assert e in after.output;
      }
    }
  }

  lemma {:induction false} BuildAccepts(codec: Codec, entries: seq<Entry>, source: Source, b: Build,
                                        items: seq<Proposed>, now: Time)
    requires WellFormed(entries, items) && Unused(items, b.seenIds) && HashesMatch(codec, b)
    requires SafeBuild(codec, entries, b) && b.nextId + |items| < U64_LIMIT
    ensures var built := BuildFrom(codec, entries, source, b, items, now);
            && built.Ok? && b.seenHashes <= built.value.seenHashes && HashesMatch(codec, built.value)
            && forall i | 0 <= i < |items| :: ProposedHash(codec, items[i]) in built.value.seenHashes
    decreases |items|
  {
    hide SafeBuild, BuildStep, WellFormed, Unused, ProposedHash, HashesMatch;
    if items != [] {
      NextAbove(codec, entries, b);
      AcceptStep(codec, entries, source, b, items, now);
      BuildStepSafe(codec, entries, source, b, items[0], now);
      var next := BuildStep(codec, entries, source, b, items[0], now).value;
      BuildAccepts(codec, entries, source, next, items[1..], now);
      assert forall i | 1 <= i < |items| :: items[i] == items[1..][i - 1];
    }
  }

  predicate AmongProposed(codec: Codec, items: seq<Proposed>, hash: string) {
    exists i | 0 <= i < |items| :: ProposedHash(codec, items[i]) == hash
  }

  /** An accepted list has no hash that was not proposed. */
  lemma {:induction false} OnlyProposed(codec: Codec, entries: seq<Entry>, source: Source, b: Build,
                                        items: seq<Proposed>, now: Time)
    ensures var built := BuildFrom(codec, entries, source, b, items, now);
            built.Ok? ==>
              forall h | h in built.value.seenHashes :: h in b.seenHashes || AmongProposed(codec, items, h)
    decreases |items|
  {
    hide ValidText, ProposedHash, ProposedId, Replacement, FreeNumber, ScopeOfId;
    if items != [] {
      var step := BuildStep(codec, entries, source, b, items[0], now);
      if step.Ok? {
        OnlyProposed(codec, entries, source, step.value, items[1..], now);
        assert forall h | h in step.value.seenHashes :: h in b.seenHashes || h == ProposedHash(codec, items[0]);
        hide BuildStep;
        forall h | AmongProposed(codec, items[1..], h)
          ensures AmongProposed(codec, items, h)
        {
          var i :| 0 <= i < |items[1..]| && ProposedHash(codec, items[1..][i]) == h;
          assert items[i + 1] == items[1..][i];
        }
        assert AmongProposed(codec, items, ProposedHash(codec, items[0]));
      }
    }
  }

  /** A well-formed answer is accepted, and the new list holds exactly the proposed contents, up to their hashes. */
  lemma {:induction false} WellFormedAccepted(codec: Codec, entries: seq<Entry>, source: Source, items: seq<Proposed>,
                                              now: Time)
    requires WellFormed(entries, items) && MaxNumber(entries) + 1 + |items| < U64_LIMIT
    ensures var built := BuildFrom(codec, entries, source, BuildStart(entries), items, now);
            && built.Ok?
            && (forall i | 0 <= i < |items| ::
                  exists e | e in built.value.output :: HashOf(codec, e) == ProposedHash(codec, items[i]))
            && (forall e | e in built.value.output :: AmongProposed(codec, items, HashOf(codec, e)))
  {
    hide MaxNumber, WellFormed, ProposedHash, HashOf, AmongProposed;
    assert SafeBuild(codec, entries, BuildStart(entries));
    BuildAccepts(codec, entries, source, BuildStart(entries), items, now);
    OnlyProposed(codec, entries, source, BuildStart(entries), items, now);
  }
}
