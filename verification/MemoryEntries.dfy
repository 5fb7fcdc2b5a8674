/** Memory entries, their ids and their content hash. */
module MemoryEntries {
  import opened Wrappers
  import opened Text

  datatype Scope = User | Public | Conversation

  /** Instants; the stored RFC 3339 strings order as the instants they name. */
  type Time = int

  datatype Source = Source(conversationId: Option<string>, agentId: Option<string>, sessionType: Option<string>)

  datatype Entry = Entry(
    id: string,
    scope: Scope,
    subject: Option<string>,
    text: string,
    tags: seq<string>,
    createdAt: Time,
    updatedAt: Time,
    lastAccessedAt: Option<Time>,
    source: Source,
    active: bool)

  /**
   What the store takes from outside: text normalisation (a tokenizer), the digest, and the length of the JSON
   line of an entry.
   */
  datatype Codec = Codec(normalize: string -> string, digest: string -> string, line: Entry -> nat)

  const ENTRY_TEXT_MAX_BYTES: nat := 1024
  const MAX_ENTRIES: nat := 512
  const MAX_STORE_BYTES: nat := 2 * 1024 * 1024
  const SUBJECT_MAX_CHARS: nat := 120
  const TAG_MAX_COUNT: nat := 8
  const TAG_MAX_CHARS: nat := 48

  // ----- Ids -----

  function Prefix(scope: Scope): string {
    match scope
    case User => "u"
    case Public => "p"
    case Conversation => "c"
  }

  function ScopeOfId(id: string): Option<Scope> {
    if "u_" <= id then Some(User)
    else if "p_" <= id then Some(Public)
    else if "c_" <= id then Some(Conversation)
    else None
  }

  function MakeId(scope: Scope, n: nat): (id: string)
    ensures ScopeOfId(id) == Some(scope)
  {
    var id := Prefix(scope) + "_" + Print(n);
    assert id[0] == Prefix(scope)[0] && id[1] == '_';
    id
  }

  /** What stands after the first underscore. */
  function AfterUnderscore(id: string): Option<string> {
    if id == "" then None else if id[0] == '_' then Some(id[1..]) else AfterUnderscore(id[1..])
  }

  /** `parse_id_number`. */
  function IdNumber(id: string): (n: Option<nat>)
    ensures n.Some? ==> n.value < U64_LIMIT
  {
    var rest := AfterUnderscore(id);
    if rest.Some? then ParseU64(rest.value) else None
  }

  lemma {:induction false} IdNumberOfMakeId(scope: Scope, n: nat)
    ensures IdNumber(MakeId(scope, n)) == if n < U64_LIMIT then Some(n) else None
  {
    var id := MakeId(scope, n);
    assert id[1..] == "_" + Print(n) && id[1..][1..] == Print(n);
    assert AfterUnderscore(id) == AfterUnderscore(id[1..]) == Some(Print(n));
    ParsePrint(n);
  }

  /** The largest id number among the entries, zero when there is none. */
  function MaxNumber(entries: seq<Entry>): (m: nat)
    ensures m < U64_LIMIT
    ensures forall i | 0 <= i < |entries| :: IdNumber(entries[i].id).Some? ==> IdNumber(entries[i].id).value <= m
  {
    if entries == [] then 0
    else
      var rest, n := MaxNumber(entries[..|entries| - 1]), IdNumber(entries[|entries| - 1].id);
      if n.Some? && n.value > rest then n.value else rest
  }

  /** The next id number, in 64-bit arithmetic. */
  function NextNumber(entries: seq<Entry>): (n: nat)
    ensures n < U64_LIMIT
  {
    (MaxNumber(entries) + 1) % U64_LIMIT
  }

  lemma {:induction false} NextNumberAbove(entries: seq<Entry>)
    requires MaxNumber(entries) < U64_LIMIT - 1
    ensures NextNumber(entries) == MaxNumber(entries) + 1
  {
  }

  /** Below the top of the range the next number is above every stored one, so the id made from it is new. */
  lemma {:induction false} NextNumberFresh(scope: Scope, entries: seq<Entry>)
    requires MaxNumber(entries) < U64_LIMIT - 1
    ensures forall i | 0 <= i < |entries| :: entries[i].id != MakeId(scope, NextNumber(entries))
  {
    NextNumberAbove(entries);
    FreshAbove(scope, entries, NextNumber(entries));
  }

  lemma {:induction false} FreshAbove(scope: Scope, entries: seq<Entry>, n: nat)
    requires MaxNumber(entries) < n < U64_LIMIT
    ensures forall i | 0 <= i < |entries| :: entries[i].id != MakeId(scope, n)
  {
    hide *;
    IdNumberOfMakeId(scope, n);
    forall i | 0 <= i < |entries|
      ensures entries[i].id != MakeId(scope, n)
    {
      assert IdNumber(entries[i].id).Some? ==> IdNumber(entries[i].id).value <= MaxNumber(entries);
    }
  }

  // ----- Texts -----

  predicate ValidText(text: string) {
    Trim(text) != "" && Bytes(Trim(text)) <= ENTRY_TEXT_MAX_BYTES
  }

  /** What a stored text looks like. */
  predicate StoredText(text: string) {
    Trimmed(text) && text != "" && Bytes(text) <= ENTRY_TEXT_MAX_BYTES
  }

  function Truncate(s: string, max: nat): string {
    if |s| <= max then s else s[..max]
  }

  function CleanSubject(subject: Option<string>): Option<string> {
    if subject.None? || Trim(subject.value) == "" then None
    else Some(Truncate(Trim(subject.value), SUBJECT_MAX_CHARS))
  }

  /** `normalize_tags`: at most eight tags, trimmed and cut, no blank one, no two that normalise alike. */
  function CleanTags(codec: Codec, tags: seq<string>): seq<string> {
    KeepTags(codec, if |tags| <= TAG_MAX_COUNT then tags else tags[..TAG_MAX_COUNT], {})
  }

  function KeepTags(codec: Codec, tags: seq<string>, seen: set<string>): seq<string> {
    if tags == [] then []
    else
      var tag := Truncate(Trim(tags[0]), TAG_MAX_CHARS);
      if tag == "" then KeepTags(codec, tags[1..], seen)
      else if codec.normalize(tag) in seen then KeepTags(codec, tags[1..], seen)
      else [tag] + KeepTags(codec, tags[1..], seen + {codec.normalize(tag)})
  }

  // ----- Content hash -----

  function JoinTags(codec: Codec, tags: seq<string>): string {
    if tags == [] then ""
    else if |tags| == 1 then codec.normalize(tags[0])
    else codec.normalize(tags[0]) + "," + JoinTags(codec, tags[1..])
  }

  /** `entry_hash`. */
  function ContentHash(codec: Codec, subject: Option<string>, text: string, tags: seq<string>): string {
    codec.digest((if subject.Some? then codec.normalize(subject.value) else "") + "\n" + codec.normalize(text)
                 + "\n" + JoinTags(codec, tags))
  }

  function HashOf(codec: Codec, e: Entry): string {
    ContentHash(codec, e.subject, e.text, e.tags)
  }

  // ----- Active entries -----

  function Actives(entries: seq<Entry>): (r: seq<Entry>)
    ensures forall i | 0 <= i < |r| :: r[i].active && r[i] in entries
    ensures |r| <= |entries|
  {
    if entries == [] then []
    else (if entries[0].active then [entries[0]] else []) + Actives(entries[1..])
  }

  lemma {:induction false} AllActive(entries: seq<Entry>)
    requires forall i | 0 <= i < |entries| :: entries[i].active
    ensures Actives(entries) == entries
  {
    if entries != [] {
      AllActive(entries[1..]);
    }
  }

  predicate DistinctIds(entries: seq<Entry>) {
    forall i, j | 0 <= i < j < |entries| :: entries[i].id != entries[j].id
  }

  lemma {:induction false} ActivesKeepDistinct(entries: seq<Entry>)
    requires DistinctIds(entries)
    ensures DistinctIds(Actives(entries))
  {
    if entries != [] {
      var rest := entries[1..];
      assert DistinctIds(rest) by {
        assert forall i | 0 <= i < |rest| :: rest[i] == entries[i + 1];
      }
      ActivesKeepDistinct(rest);
      forall j | 0 <= j < |Actives(rest)|
        ensures Actives(rest)[j].id != entries[0].id
      {
        var k :| 0 <= k < |rest| && rest[k] == Actives(rest)[j];
        assert entries[k + 1] == rest[k];
      }
    }
  }

  lemma {:induction false} ActivesCons(e: Entry, rest: seq<Entry>)
    ensures Actives([e] + rest) == (if e.active then [e] else []) + Actives(rest)
  {
    assert ([e] + rest)[1..] == rest;
  }

  lemma {:induction false} ActivesConcat(a: seq<Entry>, b: seq<Entry>)
    ensures Actives(a + b) == Actives(a) + Actives(b)
  {
    if a == [] {
      assert a + b == b;
    } else {
      hide Actives;
      ActivesConcat(a[1..], b);
      HeadFirst(a, b);
      ActivesConcatStep(a[0], a[1..], b);
    }
  }

  lemma {:induction false} ActivesConcatStep(e: Entry, rest: seq<Entry>, b: seq<Entry>)
    requires Actives(rest + b) == Actives(rest) + Actives(b)
    ensures Actives([e] + (rest + b)) == Actives([e] + rest) + Actives(b)
  {
    ActivesCons(e, rest);
    ActivesCons(e, rest + b);
    hide Actives;
    ConcatAssociative(if e.active then [e] else [], Actives(rest), Actives(b));
  }

  function LineBytes(codec: Codec, entries: seq<Entry>): nat {
    if entries == [] then 0 else codec.line(entries[0]) + LineBytes(codec, entries[1..])
  }
}
