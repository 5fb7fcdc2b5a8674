/** What the accumulated items are, said without the accumulator, and what the merged response holds. */
module StreamMerge {
  import opened Wrappers
  import opened Json
  import opened ResponsesInput
  import opened StreamEvents

  function Id(item: Value): Option<string> {
    StrField(item, "id")
  }

  /** No string id twice. */
  predicate UniqueIds(items: seq<Value>) {
    forall i, j | 0 <= i < j < |items| && Id(items[i]).Some? :: Id(items[i]) != Id(items[j])
  }

  /** The item an event reports, for the events that report one. */
  function Reported(event: Value): seq<Value> {
    var kind, item := StrField(event, "type"), Get(event, "item");
    if kind in {Some("response.output_item.done"), Some("response.output_item.added")} && item.Some?
    then [item.value] else []
  }

  function AllReported(events: seq<Value>): seq<Value>
    decreases |events|
  {
    if events == [] then [] else AllReported(events[..|events| - 1]) + Reported(events[|events| - 1])
  }

  // ----- The reference: first position, latest value -----

  /** The positions where an id appears for the first time, and all positions of items without one. */
  function Firsts(reported: seq<Value>): (r: seq<nat>)
    ensures forall i | 0 <= i < |r| :: r[i] < |reported|
    decreases |reported|
  {
    if reported == [] then []
    else
      var before, last := reported[..|reported| - 1], reported[|reported| - 1];
      Firsts(before) + if HasId(before, Id(last)) then [] else [|before|]
  }

  /** The last report with the id of report `i`. */
  function Latest(reported: seq<Value>, i: nat): (r: Value)
    requires i < |reported|
    ensures Id(r) == Id(reported[i])
    decreases |reported|
  {
    var last := |reported| - 1;
    if i == last || (Id(reported[i]).Some? && Id(reported[last]) == Id(reported[i])) then reported[last]
    else Latest(reported[..last], i)
  }

  function FirstAndLatest(reported: seq<Value>): (r: seq<Value>)
    ensures |r| == |Firsts(reported)|
  {
    seq(|Firsts(reported)|, k requires 0 <= k < |Firsts(reported)| => Latest(reported, Firsts(reported)[k]))
  }

  function PushAll(reported: seq<Value>): seq<Value>
    decreases |reported|
  {
    if reported == [] then [] else Push(PushAll(reported[..|reported| - 1]), reported[|reported| - 1])
  }

  lemma {:induction false} FirstsCover(reported: seq<Value>, p: nat) returns (i: nat)
    requires p < |reported| && Id(reported[p]).Some?
    ensures i < |Firsts(reported)| && Id(reported[Firsts(reported)[i]]) == Id(reported[p])
    decreases |reported|
  {
    var before, last := reported[..|reported| - 1], |reported| - 1;
    if p == last && !HasId(before, Id(reported[last])) {
      i := |Firsts(reported)| - 1;
    } else {
      var q: nat := p;
      if p == last {
        q :| 0 <= q < |before| && Id(before[q]) == Id(reported[last]);
      }
      i := FirstsCover(before, q);
    }
  }

  lemma {:induction false} FirstsDistinct(reported: seq<Value>)
    ensures forall i, j | 0 <= i < j < |Firsts(reported)| && Id(reported[Firsts(reported)[i]]).Some? ::
              Id(reported[Firsts(reported)[i]]) != Id(reported[Firsts(reported)[j]])
    decreases |reported|
  {
    if reported != [] {
      var before, last, firsts := reported[..|reported| - 1], |reported| - 1, Firsts(reported);
      FirstsDistinct(before);
      forall i, j | 0 <= i < j < |firsts| && Id(reported[firsts[i]]).Some?
        ensures Id(reported[firsts[i]]) != Id(reported[firsts[j]])
      {
        assert reported[firsts[i]] == before[Firsts(before)[i]];
        if j < |Firsts(before)| {
          assert reported[firsts[j]] == before[Firsts(before)[j]];
        } else {
          assert firsts[j] == last && !HasId(before, Id(reported[last]));
        }
      }
    }
  }

  /** A report with a known id updates the entry of that id in place. */
  lemma {:induction false} PushKnown(before: seq<Value>, item: Value)
    requires HasId(before, Id(item))
    ensures Push(FirstAndLatest(before), item) == FirstAndLatest(before + [item])
  {
    var reported, entries := before + [item], FirstAndLatest(before);
    var w :| 0 <= w < |before| && Id(before[w]) == Id(item);
    var i := FirstsCover(before, w);
    FirstsDistinct(before);
    assert reported[..|before|] == before;
    assert Id(entries[i]) == Id(item);
    var at := FindId(entries, Id(item).value);
    forall k | 0 <= k < |entries| && k != i
      ensures Id(entries[k]) != Id(item)
    {
      assert Id(entries[k]) == Id(before[Firsts(before)[k]]);
    }
    assert at == i;
    forall k | 0 <= k < |entries|
      ensures Latest(reported, Firsts(before)[k]) == if k == i then item else entries[k]
    {
      assert reported[Firsts(before)[k]] == before[Firsts(before)[k]];
    }
  }

  /** Any other report is appended. */
  lemma {:induction false} PushNew(before: seq<Value>, item: Value)
    requires !HasId(before, Id(item))
    ensures Push(FirstAndLatest(before), item) == FirstAndLatest(before + [item])
  {
    var reported, entries := before + [item], FirstAndLatest(before);
    assert reported[..|before|] == before;
    forall k | 0 <= k < |entries|
      ensures Latest(reported, Firsts(before)[k]) == entries[k]
      ensures Id(item).Some? ==> Id(entries[k]) != Id(item)
    {
      assert reported[Firsts(before)[k]] == before[Firsts(before)[k]];
    }
  }

  lemma {:induction false} PushAllIsReference(reported: seq<Value>)
    ensures PushAll(reported) == FirstAndLatest(reported)
    decreases |reported|
  {
    if reported != [] {
      var before, last := reported[..|reported| - 1], reported[|reported| - 1];
      PushAllIsReference(before);
      if HasId(before, Id(last)) {
        PushKnown(before, last);
      } else {
        PushNew(before, last);
      }
      assert before + [last] == reported;
    }
  }

  lemma {:induction false} FeedPushes(a: Accumulator, event: Value, show: Value -> string)
    ensures Feed(a, event, show).0.items
         == if Reported(event) == [] then a.items else Push(a.items, Reported(event)[0])
  {
  }

  lemma {:induction false} ItemsArePushed(events: seq<Value>, show: Value -> string)
    ensures FeedAll(FRESH, events, show).0.items == PushAll(AllReported(events))
    decreases |events|
  {
    if events != [] {
      ItemsArePushed(events[..|events| - 1], show);
      var before, part := AllReported(events[..|events| - 1]), Reported(events[|events| - 1]);
      FeedPushes(FeedAll(FRESH, events[..|events| - 1], show).0, events[|events| - 1], show);
      if part == [] {
        assert before + part == before;
      } else {
        assert before + part == before + [part[0]];
        assert (before + part)[..|before|] == before;
      }
    }
  }

  /**
   For every order of events the accumulator holds each reported id once, where it first appeared, with the
   value it had last.
   */
  lemma {:induction false} AccumulatedItems(events: seq<Value>, show: Value -> string)
    ensures var items := FeedAll(FRESH, events, show).0.items;
            && items == FirstAndLatest(AllReported(events))
            && UniqueIds(items)
  {
    ItemsArePushed(events, show);
    PushAllIsReference(AllReported(events));
    FirstsDistinct(AllReported(events));
  }

  // ----- The merged response -----

  /** The items whose id the output lacks, in order; items without an id are always kept. */
  function Lacking(output: seq<Value>, items: seq<Value>): seq<Value> {
    if items == [] then []
    else (if HasId(output, Id(items[0])) then [] else [items[0]]) + Lacking(output, items[1..])
  }

  lemma {:induction false} LackingMore(output: seq<Value>, item: Value, items: seq<Value>)
    requires Id(item).Some? ==> forall i | 0 <= i < |items| :: Id(items[i]) != Id(item)
    ensures Lacking(output + [item], items) == Lacking(output, items)
  {
    if items != [] {
      LackingMore(output, item, items[1..]);
      HasIdMore(output, item, Id(items[0]));
    }
  }

  lemma {:induction false} HasIdMore(output: seq<Value>, item: Value, id: Option<string>)
    requires id.Some? ==> Id(item) != id
    ensures HasId(output + [item], id) == HasId(output, id)
  {
    if HasId(output, id) {
      var i :| 0 <= i < |output| && StrField(output[i], "id") == id;
      assert StrField((output + [item])[i], "id") == id;
    }
  }

  lemma {:induction false} MergeAppendsLacking(output: seq<Value>, items: seq<Value>)
    requires UniqueIds(items)
    ensures MergeInto(output, items) == output + Lacking(output, items)
    decreases |items|
  {
    if items != [] {
      var first, rest := items[0], items[1..];
      assert UniqueIds(rest) by {
        assert forall i | 0 <= i < |rest| :: rest[i] == items[i + 1];
      }
      if HasId(output, Id(first)) {
        MergeAppendsLacking(output, rest);
      } else {
        MergeAppendsLacking(output + [first], rest);
        LackingMore(output, first, rest);
        assert output + [first] + Lacking(output, rest) == output + ([first] + Lacking(output, rest));
      }
    }
  }

  lemma {:induction false} LackingUnique(output: seq<Value>, items: seq<Value>)
    requires UniqueIds(items)
    ensures UniqueIds(Lacking(output, items))
    ensures forall i | 0 <= i < |Lacking(output, items)| ::
              Lacking(output, items)[i] in items && !HasId(output, Id(Lacking(output, items)[i]))
  {
    if items != [] {
      var rest := items[1..];
      assert UniqueIds(rest) by {
        assert forall i | 0 <= i < |rest| :: rest[i] == items[i + 1];
      }
      LackingUnique(output, rest);
      if !HasId(output, Id(items[0])) && Id(items[0]).Some? {
        forall j | 0 <= j < |Lacking(output, rest)|
          ensures Id(Lacking(output, rest)[j]) != Id(items[0])
        {
          var k :| 0 <= k < |rest| && rest[k] == Lacking(output, rest)[j];
          assert items[k + 1] == rest[k];
        }
      }
    }
  }

  lemma {:induction false} MergedUnique(own: seq<Value>, items: seq<Value>)
    requires UniqueIds(items) && UniqueIds(own)
    ensures UniqueIds(own + Lacking(own, items))
  {
    var lacking := Lacking(own, items);
    LackingUnique(own, items);
    var merged := own + lacking;
    forall i, j | 0 <= i < j < |merged| && Id(merged[i]).Some?
      ensures Id(merged[i]) != Id(merged[j])
    {
      if i < |own| <= j {
        assert merged[j] == lacking[j - |own|] && merged[i] == own[i];
        assert !HasId(own, Id(lacking[j - |own|]));
      } else if |own| <= i {
        assert merged[i] == lacking[i - |own|] && merged[j] == lacking[j - |own|];
      }
    }
  }

  /**
   The final response: its own output first, then the accumulated items whose ids it lacks, in order, and no id
   twice when its own ids were distinct.
   */
  lemma {:induction false} MergedResponse(events: seq<Value>, response: Value, show: Value -> string)
    requires response.Obj?
    ensures var merged := OutputItems(Complete(events, response, show).response);
            && merged == OutputItems(response) + Lacking(OutputItems(response), FirstAndLatest(AllReported(events)))
            && (UniqueIds(OutputItems(response)) ==> UniqueIds(merged))
    ensures var merged := Complete(events, response, show).response;
            merged.Obj? && merged.fields - {"output"} == response.fields - {"output"}
  {
    var own, items := OutputItems(response), FirstAndLatest(AllReported(events));
    AccumulatedItems(events, show);
    MergeAppendsLacking(own, items);
    if UniqueIds(own) {
      MergedUnique(own, items);
    }
  }
}
