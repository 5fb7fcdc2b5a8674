/** The subject catalogue written beside the public entries. */
module SubjectCatalog {
  import opened Wrappers
  import opened Text
  import opened MemoryEntries

  datatype CatalogItem = CatalogItem(
    aliases: seq<string>,
    entryIds: seq<string>,
    lastSeen: Time,
    summary: string)

  type Catalog = map<string, CatalogItem>

  const SUMMARY_MAX_CHARS: nat := 160

  function Summary(e: Entry): string {
    Truncate(Trim(e.text), SUMMARY_MAX_CHARS)
  }

  /** Aliases not yet known by their normal form, appended in order. */
  function AddAliases(codec: Codec, known: seq<string>, more: seq<string>): seq<string>
    decreases |more|
  {
    if more == [] then known
    else
      var form := codec.normalize(more[0]);
      AddAliases(codec, if form == "" || Represented(codec, known, form) then known else known + [more[0]], more[1..])
  }

  predicate Represented(codec: Codec, aliases: seq<string>, form: string) {
    exists i | 0 <= i < |aliases| :: codec.normalize(aliases[i]) == form
  }

  /** One active entry with a subject. `aliasesOf` proposes the aliases of an entry. */
  function AddEntry(codec: Codec, aliasesOf: Entry -> seq<string>, catalog: Catalog, e: Entry): Catalog {
    if !e.active || e.subject.None? then catalog
    else
      var item := if e.subject.value in catalog then catalog[e.subject.value]
                  else CatalogItem([], [], e.updatedAt, Summary(e));
      var newer := e.updatedAt > item.lastSeen;
      catalog[e.subject.value :=
        CatalogItem(AddAliases(codec, item.aliases, aliasesOf(e)),
                    item.entryIds + [e.id],
                    if newer then e.updatedAt else item.lastSeen,
                    if newer then Summary(e) else item.summary)]
  }

  function Build(codec: Codec, aliasesOf: Entry -> seq<string>, entries: seq<Entry>): Catalog
    decreases |entries|
  {
    if entries == [] then map[]
    else AddEntry(codec, aliasesOf, Build(codec, aliasesOf, entries[..|entries| - 1]), entries[|entries| - 1])
  }

  /** `write_subjects`: one pass over the entries, updating the catalogue in place. */
  method WriteSubjects(codec: Codec, aliasesOf: Entry -> seq<string>, entries: seq<Entry>) returns (catalog: Catalog)
    ensures catalog == Build(codec, aliasesOf, entries)
    ensures Agrees(codec, aliasesOf, entries, catalog)
  {
    catalog := map[];
    var i := 0;
    while i < |entries|
      invariant 0 <= i <= |entries|
      invariant catalog == Build(codec, aliasesOf, entries[..i])
    {
      assert entries[..i + 1][..i] == entries[..i];
      if entries[i].active && entries[i].subject.Some? {
        var subject := entries[i].subject.value;
        var item := if subject in catalog then catalog[subject]
                    else CatalogItem([], [], entries[i].updatedAt, Summary(entries[i]));
        item := item.(entryIds := item.entryIds + [entries[i].id]);
        if entries[i].updatedAt > item.lastSeen {
          item := item.(lastSeen := entries[i].updatedAt, summary := Summary(entries[i]));
        }
        item := item.(aliases := AddAliases(codec, item.aliases, aliasesOf(entries[i])));
        catalog := catalog[subject := item];
      }
      i := i + 1;
    }
    assert entries[..i] == entries;
    CatalogAgrees(codec, aliasesOf, entries);
  }

  // ----- What the catalogue must say -----

  /** The active entries of one subject, in order. */
  function Of(entries: seq<Entry>, subject: string): seq<Entry>
    decreases |entries|
  {
    if entries == [] then []
    else
      var last := entries[|entries| - 1];
      Of(entries[..|entries| - 1], subject) + if last.active && last.subject == Some(subject) then [last] else []
  }

  function Ids(entries: seq<Entry>): (r: seq<string>)
    ensures |r| == |entries| && forall i | 0 <= i < |r| :: r[i] == entries[i].id
  {
    seq(|entries|, i requires 0 <= i < |entries| => entries[i].id)
  }

  /** Position `i` is the first of the newest. */
  predicate FirstNewest(entries: seq<Entry>, i: nat) {
    && i < |entries|
    && (forall j | 0 <= j < |entries| :: entries[j].updatedAt <= entries[i].updatedAt)
    && (forall j | 0 <= j < i :: entries[j].updatedAt < entries[i].updatedAt)
  }

  predicate DistinctForms(codec: Codec, aliases: seq<string>) {
    && (forall i | 0 <= i < |aliases| :: codec.normalize(aliases[i]) != "")
    && (forall i, j | 0 <= i < j < |aliases| :: codec.normalize(aliases[i]) != codec.normalize(aliases[j]))
  }

  predicate AliasesCover(codec: Codec, aliasesOf: Entry -> seq<string>, entries: seq<Entry>, aliases: seq<string>) {
    forall i, k | 0 <= i < |entries| && 0 <= k < |aliasesOf(entries[i])| && codec.normalize(aliasesOf(entries[i])[k]) != "" ::
      Represented(codec, aliases, codec.normalize(aliasesOf(entries[i])[k]))
  }

  /** One catalogue item against the entries of its subject. */
  ghost predicate ItemAgrees(codec: Codec, aliasesOf: Entry -> seq<string>, entries: seq<Entry>, item: CatalogItem) {
    && item.entryIds == Ids(entries)
    && (exists i: nat :: FirstNewest(entries, i) && item.lastSeen == entries[i].updatedAt && item.summary == Summary(entries[i]))
    && DistinctForms(codec, item.aliases)
    && AliasesCover(codec, aliasesOf, entries, item.aliases)
  }

  ghost predicate Agrees(codec: Codec, aliasesOf: Entry -> seq<string>, entries: seq<Entry>, catalog: Catalog) {
    && (forall subject :: subject in catalog <==> Of(entries, subject) != [])
    && (forall subject | subject in catalog :: ItemAgrees(codec, aliasesOf, Of(entries, subject), catalog[subject]))
  }

  // ----- Proof -----

  lemma {:induction false} AddAliasesMeaning(codec: Codec, known: seq<string>, more: seq<string>)
    requires DistinctForms(codec, known)
    ensures var all := AddAliases(codec, known, more);
            && DistinctForms(codec, all) && known <= all
            && forall k | 0 <= k < |more| && codec.normalize(more[k]) != "" ::
                 Represented(codec, all, codec.normalize(more[k]))
    decreases |more|
  {
    if more != [] {
      var form := codec.normalize(more[0]);
      var next := if form == "" || Represented(codec, known, form) then known else known + [more[0]];
      assert form != "" && next != known ==> next[|known|] == more[0];
      AddAliasesMeaning(codec, next, more[1..]);
      var all := AddAliases(codec, known, more);
      if form != "" {
        assert Represented(codec, next, form);
        RepresentedGrows(codec, next, all, form);
      }
      forall k | 0 <= k < |more| && codec.normalize(more[k]) != ""
        ensures Represented(codec, all, codec.normalize(more[k]))
      {
        if k > 0 {
          assert more[k] == more[1..][k - 1];
        }
      }
    }
  }

  lemma {:induction false} RepresentedGrows(codec: Codec, some: seq<string>, all: seq<string>, form: string)
    requires some <= all && Represented(codec, some, form)
    ensures Represented(codec, all, form)
  {
    var i :| 0 <= i < |some| && codec.normalize(some[i]) == form;
    assert all[i] == some[i];
  }

  lemma {:induction false} ItemGrows(codec: Codec, aliasesOf: Entry -> seq<string>, entries: seq<Entry>,
                                     item: CatalogItem, e: Entry)
    requires ItemAgrees(codec, aliasesOf, entries, item)
    ensures var newer := e.updatedAt > item.lastSeen;
            ItemAgrees(codec, aliasesOf, entries + [e],
                       CatalogItem(AddAliases(codec, item.aliases, aliasesOf(e)), item.entryIds + [e.id],
                                   if newer then e.updatedAt else item.lastSeen,
                                   if newer then Summary(e) else item.summary))
  {
    hide Summary, AddAliases, DistinctForms, AliasesCover;
    var all := entries + [e];
    var i: nat :| FirstNewest(entries, i) && item.lastSeen == entries[i].updatedAt && item.summary == Summary(entries[i]);
    NewestGrows(entries, i, e);
    AliasesGrow(codec, aliasesOf, entries, item.aliases, e);
    assert Ids(all) == Ids(entries) + [e.id];
    assert all[|entries|] == e && all[i] == entries[i];
  }

  lemma {:induction false} NewestGrows(entries: seq<Entry>, i: nat, e: Entry)
    requires FirstNewest(entries, i)
    ensures if e.updatedAt > entries[i].updatedAt then FirstNewest(entries + [e], |entries|)
            else FirstNewest(entries + [e], i)
  {
  }

  lemma {:induction false} AliasesGrow(codec: Codec, aliasesOf: Entry -> seq<string>, entries: seq<Entry>,
                                       known: seq<string>, e: Entry)
    requires DistinctForms(codec, known) && AliasesCover(codec, aliasesOf, entries, known)
    ensures var aliases := AddAliases(codec, known, aliasesOf(e));
            DistinctForms(codec, aliases) && AliasesCover(codec, aliasesOf, entries + [e], aliases)
  {
    hide DistinctForms, Represented;
    var all, aliases := entries + [e], AddAliases(codec, known, aliasesOf(e));
    AddAliasesMeaning(codec, known, aliasesOf(e));
    forall n, k | 0 <= n < |all| && 0 <= k < |aliasesOf(all[n])| && codec.normalize(aliasesOf(all[n])[k]) != ""
      ensures Represented(codec, aliases, codec.normalize(aliasesOf(all[n])[k]))
    {
      if n < |entries| {
        assert all[n] == entries[n];
        RepresentedGrows(codec, known, aliases, codec.normalize(aliasesOf(all[n])[k]));
      }
    }
  }

  lemma {:induction false} FirstItem(codec: Codec, aliasesOf: Entry -> seq<string>, e: Entry)
    ensures ItemAgrees(codec, aliasesOf, [e],
                       CatalogItem(AddAliases(codec, [], aliasesOf(e)), [] + [e.id], e.updatedAt, Summary(e)))
  {
    hide Summary;
    AddAliasesMeaning(codec, [], aliasesOf(e));
    assert FirstNewest([e], 0);
  }

  /**
   For every list of entries the catalogue has exactly the subjects of active entries, and for each of them the
   ordered ids, the newest time, the summary of the first entry reaching it, and aliases that are pairwise distinct
   after normalisation and leave none out.
   */
  lemma {:induction false} CatalogAgrees(codec: Codec, aliasesOf: Entry -> seq<string>, entries: seq<Entry>)
    ensures Agrees(codec, aliasesOf, entries, Build(codec, aliasesOf, entries))
    decreases |entries|
  {
    hide ItemAgrees, AddAliases, Summary;
    if entries != [] {
      var before, e := entries[..|entries| - 1], entries[|entries| - 1];
      var catalog := Build(codec, aliasesOf, before);
      CatalogAgrees(codec, aliasesOf, before);
      if e.active && e.subject.Some? {
        var subject := e.subject.value;
        if subject in catalog {
          ItemGrows(codec, aliasesOf, Of(before, subject), catalog[subject], e);
        } else {
          assert Of(before, subject) == [] && Of(entries, subject) == [e];
          FirstItem(codec, aliasesOf, e);
        }
      }
      forall other | !(e.active && e.subject == Some(other))
        ensures Of(entries, other) == Of(before, other)
      {
      }
    }
  }
}
