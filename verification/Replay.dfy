/**
 Parse then replay: reading a response into a chat message and building input items from that message again.
 The provider records the canonical output items as the end of its baseline, so the next turn is incremental
 only when the replayed message reproduces exactly those items.
 */
module Replay {
  import opened Wrappers
  import opened Json
  import opened Text
  import opened ResponsesInput

  /** The items an assistant message with this data becomes on the next turn. */
  function ReplayItems(data: seq<Item>): seq<Value> {
    MessageInput(Message(Assistant, data))
  }

  predicate IsReasoning(v: Value) {
    StrField(v, "type") == Some("reasoning")
  }

  predicate NormalPart(part: Value) {
    var text := StrField(part, "text");
    text.Some? && text.value != "" && part == TextPart("summary_text", text.value)
  }

  predicate NormalSummary(summary: Option<Value>) {
    && summary.Some? && summary.value.Arr?
    && forall i | 0 <= i < |summary.value.items| :: NormalPart(summary.value.items[i])
  }

  /** Item by item: assistant messages, reasoning with a normalised summary, calls with string arguments and id. */
  predicate Replayable(v: Value) {
    || IsAssistantMessage(v)
    || (IsReasoning(v) && NormalSummary(Get(v, "summary")))
    || (StrField(v, "type") == Some("function_call") && StrField(v, "arguments").Some?
        && (Get(v, "id").None? || StrField(v, "id").Some?))
  }

  predicate AllReplayable(items: seq<Value>) {
    forall i | 0 <= i < |items| :: Replayable(items[i])
  }

  predicate ReasoningFirst(items: seq<Value>) {
    forall i, j | 0 <= i < j < |items| :: IsReasoning(items[j]) ==> IsReasoning(items[i])
  }

  predicate NoAdjacentMessages(items: seq<Value>) {
    forall i | 0 <= i < |items| - 1 :: !(IsAssistantMessage(items[i]) && IsAssistantMessage(items[i + 1]))
  }

  function Reasonings(items: seq<Value>): seq<Value> {
    if items == [] then []
    else (if IsReasoning(items[0]) then [items[0]] else []) + Reasonings(items[1..])
  }

  function Spoken(items: seq<Value>): seq<Value> {
    if items == [] then []
    else (if IsReasoning(items[0]) then [] else [items[0]]) + Spoken(items[1..])
  }

  // ----- What replaying produces -----

  lemma {:induction false} ReasoningItemsShape(data: seq<Item>)
    ensures AllReplayable(ReasoningItems(data))
    ensures forall i | 0 <= i < |ReasoningItems(data)| :: IsReasoning(ReasoningItems(data)[i])
  {
    if data != [] {
      hide NonEmpty, Replayable, IsReasoning, ReasoningItem, SummaryPayload;
      ReasoningItemsShape(data[1..]);
      if data[0].Reasoning? && data[0].encryptedContent.Some? && data[0].encryptedContent.value != "" {
        RebuiltReasoning(data[0].parts, data[0].encryptedContent.value);
      }
    }
  }

  lemma {:induction false} RebuiltReasoning(parts: seq<string>, encrypted: string)
    requires encrypted != ""
    ensures Replayable(ReasoningItem(SummaryPayload(parts), encrypted))
    ensures IsReasoning(ReasoningItem(SummaryPayload(parts), encrypted))
  {
    NonEmptyShape(parts);
  }

  lemma {:induction false} NonEmptyShape(parts: seq<string>)
    ensures "" !in NonEmpty(parts)
    ensures "" !in parts ==> NonEmpty(parts) == parts
  {
    if parts != [] {
      NonEmptyShape(parts[1..]);
    }
  }

  lemma {:induction false} AssistantItemsShape(data: seq<Item>, pending: seq<Value>)
    ensures var items := AssistantItems(data, pending);
            && AllReplayable(items) && NoAdjacentMessages(items)
            && forall i | 0 <= i < |items| :: !IsReasoning(items[i])
    decreases |data|
  {
    if data != [] {
      if data[0].ToolCall? {
        AssistantItemsShape(data[1..], []);
      } else {
        var text := AssistantText(data[0]);
        AssistantItemsShape(data[1..],
                            if text.Some? then pending + [TextPart("output_text", text.value)] else pending);
      }
    }
  }

  lemma {:induction false} ParsedHasNoResults(output: seq<Value>, show: Value -> string)
    requires NoImages(output) && ParseOutput(output, show).Some?
    ensures ToolOutputs(ParseOutput(output, show).value) == []
  {
    if output != [] {
      var first := ParseItem(output[0], show).value;
      ParsedHasNoResults(output[1..], show);
      NoResults(first, ParseOutput(output[1..], show).value);
    }
  }

  lemma {:induction false} NoResults(first: seq<Item>, rest: seq<Item>)
    requires forall i | 0 <= i < |first| :: !first[i].ToolResult?
    ensures ToolOutputs(first + rest) == ToolOutputs(rest)
  {
    if first == [] {
      assert first + rest == rest;
    } else {
      NoResults(first[1..], rest);
      assert (first + rest)[1..] == first[1..] + rest;
    }
  }

  // ----- From canonical items back to the same items -----

  lemma {:induction false} SummaryRoundTrip(parts: seq<Value>)
    requires forall i | 0 <= i < |parts| :: NormalPart(parts[i])
    ensures "" !in SummaryTexts(parts)
    ensures TextParts("summary_text", SummaryTexts(parts)) == parts
  {
    if parts != [] {
      SummaryRoundTrip(parts[1..]);
      var texts := SummaryTexts(parts[1..]);
      assert SummaryTexts(parts) == [StrField(parts[0], "text").value] + texts;
      assert TextParts("summary_text", SummaryTexts(parts)) == [parts[0]] + TextParts("summary_text", texts);
    }
  }

  lemma {:induction false} ReasoningCons(first: Item, rest: seq<Item>)
    ensures ReasoningItems([first] + rest) == ReasoningItems([first]) + ReasoningItems(rest)
  {
    hide SummaryPayload, ReasoningItem;
    assert ([first] + rest)[1..] == rest && [first][1..] == [] && ReasoningItems([]) == [];
  }

  lemma {:induction false} ReasoningItemsConcat(a: seq<Item>, b: seq<Item>)
    ensures ReasoningItems(a + b) == ReasoningItems(a) + ReasoningItems(b)
  {
    if a == [] {
      assert a + b == b;
    } else {
      ReasoningItemsConcat(a[1..], b);
      ReasoningCons(a[0], a[1..]);
      ReasoningCons(a[0], a[1..] + b);
      assert a + b == [a[0]] + (a[1..] + b) && a == [a[0]] + a[1..];
      ConcatAssociative(ReasoningItems([a[0]]), ReasoningItems(a[1..]), ReasoningItems(b));
    }
  }

  lemma {:induction false} ContextsHaveNoReasoning(data: seq<Item>)
    requires forall i | 0 <= i < |data| :: !data[i].Reasoning?
    ensures ReasoningItems(data) == []
  {
    if data != [] {
      ContextsHaveNoReasoning(data[1..]);
    }
  }

  /** One output item: the reasoning part of its data is its canonical form when that is reasoning. */
  lemma {:induction false} ReasoningOfItem(item: Value, show: Value -> string)
    requires !HasImage(item) && ParseItem(item, show).Some?
    requires Canonical(item).Some? ==> Replayable(Canonical(item).value)
    ensures ReasoningItems(ParseItem(item, show).value)
         == if Canonical(item).Some? && IsReasoning(Canonical(item).value) then [Canonical(item).value] else []
  {
    var data := ParseItem(item, show).value;
    if !IsAssistantMessage(item) && IsReasoning(item) {
      if Encrypted(item).Some? {
        var summary := Get(item, "summary").UnwrapOr(Arr([]));
        assert Get(Canonical(item).value, "summary") == Some(summary);
        SummaryRoundTrip(summary.items);
        NonEmptyShape(ReasoningSummary(item));
        assert data == [Reasoning("", ReasoningSummary(item), Encrypted(item))];
        assert SummaryPayload(ReasoningSummary(item)) == summary;
      }
    } else {
      ContextsHaveNoReasoning(data);
    }
  }

  lemma {:induction false} ReasoningPart(output: seq<Value>, show: Value -> string)
    requires NoImages(output) && ParseOutput(output, show).Some?
    requires AllReplayable(CanonicalOutput(output))
    ensures ReasoningItems(ParseOutput(output, show).value) == Reasonings(CanonicalOutput(output))
  {
    assert ReasoningItems([]) == [];
    if output != [] {
      hide Canonical, Replayable, IsReasoning, ReasoningItems, HasImage, ParseItem;
      var first, rest := Canonical(output[0]), CanonicalOutput(output[1..]);
      CanonicalStep(output);
      ReasoningPart(output[1..], show);
      ReasoningOfItem(output[0], show);
      ReasoningItemsConcat(ParseItem(output[0], show).value, ParseOutput(output[1..], show).value);
      if first.Some? {
        assert CanonicalOutput(output)[1..] == rest;
      } else {
        assert CanonicalOutput(output) == rest;
      }
    }
  }

  /** Replayability of all canonical items passes to the first item and to the rest. */
  lemma {:induction false} CanonicalStep(output: seq<Value>)
    requires output != [] && AllReplayable(CanonicalOutput(output))
    ensures Canonical(output[0]).Some? ==> Replayable(Canonical(output[0]).value)
    ensures AllReplayable(CanonicalOutput(output[1..]))
  {
    var first, rest := Canonical(output[0]), CanonicalOutput(output[1..]);
    if first.Some? {
      assert CanonicalOutput(output)[0] == first.value;
      assert CanonicalOutput(output)[1..] == rest;
    } else {
      assert CanonicalOutput(output) == rest;
    }
  }

  lemma {:induction false} OneContext(texts: seq<string>, rest: seq<Item>, pending: seq<Value>)
    requires texts != []
    ensures AssistantItems(Contexts(texts) + rest, pending)
         == AssistantItems(Contexts(texts[1..]) + rest, pending + [TextPart("output_text", texts[0])])
  {
    hide TextPart;
    assert (Contexts(texts) + rest)[1..] == Contexts(texts[1..]) + rest;
  }

  lemma {:induction false} ContextsPileUp(texts: seq<string>, rest: seq<Item>, pending: seq<Value>)
    ensures AssistantItems(Contexts(texts) + rest, pending)
         == AssistantItems(rest, pending + TextParts("output_text", texts))
    decreases |texts|
  {
    if texts == [] {
      assert Contexts(texts) + rest == rest;
      assert pending + TextParts("output_text", texts) == pending;
    } else {
      var next := pending + [TextPart("output_text", texts[0])];
      ContextsPileUp(texts[1..], rest, next);
      OneContext(texts, rest, pending);
      hide AssistantItems, TextPart;
      var first, more := [TextPart("output_text", texts[0])], TextParts("output_text", texts[1..]);
      assert TextParts("output_text", texts) == first + more;
      ConcatAssociative(pending, first, more);
    }
  }

  predicate StartsWithMessage(items: seq<Value>) {
    items != [] && IsAssistantMessage(items[0])
  }

  /** A call with string arguments and id is rebuilt field for field. */
  lemma {:induction false} CallRoundTrip(item: Value, show: Value -> string)
    requires StrField(item, "type") == Some("function_call")
    requires !HasImage(item) && ParseItem(item, show).Some?
    requires Replayable(Canonical(item).value)
    ensures var call := ParseItem(item, show).value[0];
            && ParseItem(item, show).value == [call] && call.ToolCall?
            && CallItem(call.itemId, call.callId, call.name, call.arguments) == Canonical(item).value
  {
    var fields := CallFields(item);
    assert Get(Obj(fields), "arguments") == Get(item, "arguments");
    assert Get(Obj(fields), "id") == Get(item, "id");
    assert Get(Obj(fields), "name") == Get(item, "name");
    assert Get(Obj(fields), "call_id") == Get(item, "call_id");
    var call := ParseItem(item, show).value[0];
    var rebuilt := CallItem(call.itemId, call.callId, call.name, call.arguments);
    assert rebuilt.fields == fields;
  }

  lemma {:induction false} SpokenCons(output: seq<Value>)
    requires output != []
    ensures var first, rest := Canonical(output[0]), Spoken(CanonicalOutput(output[1..]));
            Spoken(CanonicalOutput(output))
            == if first.Some? && !IsReasoning(first.value) then [first.value] + rest else rest
  {
    var first, rest := Canonical(output[0]), CanonicalOutput(output[1..]);
    if first.Some? {
      assert CanonicalOutput(output)[1..] == rest;
    } else {
      assert CanonicalOutput(output) == rest;
    }
  }

  /** What is pending after an item: reasoning and nothing leave it, a message replaces it, a call flushes it. */
  function PendingAfter(item: Value, pending: seq<Value>): seq<Value> {
    if Canonical(item).None? || IsReasoning(Canonical(item).value) then pending
    else if IsAssistantMessage(item) then TextParts("output_text", MessageTexts(item))
    else []
  }

  lemma {:induction false} SpokenPart(output: seq<Value>, show: Value -> string, pending: seq<Value>)
    requires NoImages(output) && ParseOutput(output, show).Some?
    requires AllReplayable(CanonicalOutput(output))
    requires NoAdjacentMessages(Spoken(CanonicalOutput(output)))
    requires pending != [] ==> !StartsWithMessage(Spoken(CanonicalOutput(output)))
    ensures AssistantItems(ParseOutput(output, show).value, pending)
         == Flush(pending) + Spoken(CanonicalOutput(output))
    decreases |output|
  {
    if output == [] {
      assert AssistantItems([], pending) == Flush(pending) + [];
    } else {
      hide ParseItem, Replayable, HasImage, IsReasoning, Canonical, IsAssistantMessage, AssistantItems, Flush, TextParts,
           StartsWithMessage, NoAdjacentMessages;
      var item, first := output[0], Canonical(output[0]);
      var rest, next := Spoken(CanonicalOutput(output[1..])), PendingAfter(item, pending);
      CanonicalStep(output);
      SpokenCons(output);
      if first.Some? && !IsReasoning(first.value) {
        MessageForm(item);
        SpokenTail(first.value, rest);
      }
      SpokenPart(output[1..], show, next);
      SpokenStep(item, show, ParseOutput(output[1..], show).value, rest, pending);
    }
  }

  /** One item before what is already known to come back. */
  lemma {:induction false} SpokenStep(item: Value, show: Value -> string, more: seq<Item>, rest: seq<Value>,
                                      pending: seq<Value>)
    requires !HasImage(item) && ParseItem(item, show).Some?
    requires Canonical(item).Some? ==> Replayable(Canonical(item).value)
    requires var next := PendingAfter(item, pending); AssistantItems(more, next) == Flush(next) + rest
    requires Canonical(item).Some? && IsAssistantMessage(Canonical(item).value) ==> pending == []
    ensures var first := Canonical(item);
            AssistantItems(ParseItem(item, show).value + more, pending)
            == Flush(pending) + if first.Some? && !IsReasoning(first.value) then [first.value] + rest else rest
  {
    hide ParseItem, Replayable, HasImage, Canonical, AssistantItems, TextParts;
    var first := Canonical(item);
    if first.None? || IsReasoning(first.value) {
      SilentItem(item, show, more, pending);
    } else {
      MessageForm(item);
      if IsAssistantMessage(item) {
        MessageSpoken(item, show, more);
        assert Flush([]) + ([first.value] + rest) == [first.value] + rest;
      } else {
        CallItemSpoken(item, show, more, pending);
        assert Flush([]) + rest == rest;
        ConcatAssociative(Flush(pending), [first.value], rest);
      }
    }
  }

  /** A message keeps its kind and has at least one text. */
  lemma {:induction false} MessageForm(item: Value)
    requires Canonical(item).Some?
    ensures IsAssistantMessage(Canonical(item).value) <==> IsAssistantMessage(item)
    ensures IsAssistantMessage(item) ==>
              && MessageTexts(item) != []
              && [Canonical(item).value] == Flush(TextParts("output_text", MessageTexts(item)))
  {
    hide TextParts;
  }

  lemma {:induction false} MessageSpoken(item: Value, show: Value -> string, more: seq<Item>)
    requires !HasImage(item) && IsAssistantMessage(item)
    ensures AssistantItems(ParseItem(item, show).value + more, [])
         == AssistantItems(more, TextParts("output_text", MessageTexts(item)))
  {
    ContextsPileUp(MessageTexts(item), more, []);
    assert [] + TextParts("output_text", MessageTexts(item)) == TextParts("output_text", MessageTexts(item));
  }

  lemma {:induction false} CallItemSpoken(item: Value, show: Value -> string, more: seq<Item>, pending: seq<Value>)
    requires !HasImage(item) && ParseItem(item, show).Some? && Canonical(item).Some?
    requires Replayable(Canonical(item).value) && !IsReasoning(Canonical(item).value) && !IsAssistantMessage(item)
    ensures AssistantItems(ParseItem(item, show).value + more, pending)
         == Flush(pending) + [Canonical(item).value] + AssistantItems(more, [])
  {
    assert StrField(item, "type") == Some("function_call");
    CallRoundTrip(item, show);
    assert (ParseItem(item, show).value + more)[1..] == more;
  }

  lemma {:induction false} SpokenTail(first: Value, rest: seq<Value>)
    requires NoAdjacentMessages([first] + rest)
    ensures NoAdjacentMessages(rest)
    ensures IsAssistantMessage(first) ==> !StartsWithMessage(rest)
  {
    var all := [first] + rest;
    forall i | 0 <= i < |rest| - 1
      ensures !(IsAssistantMessage(rest[i]) && IsAssistantMessage(rest[i + 1]))
    {
      assert rest[i] == all[i + 1] && rest[i + 1] == all[i + 2];
    }
    if rest != [] {
      assert all[0] == first && all[1] == rest[0];
    }
  }

  /** An item whose canonical form is reasoning or nothing leaves the pending texts alone. */
  lemma {:induction false} SilentItem(item: Value, show: Value -> string, more: seq<Item>, pending: seq<Value>)
    requires !HasImage(item) && ParseItem(item, show).Some?
    requires Canonical(item).Some? ==> IsReasoning(Canonical(item).value)
    ensures AssistantItems(ParseItem(item, show).value + more, pending) == AssistantItems(more, pending)
  {
    var data := ParseItem(item, show).value;
    if IsAssistantMessage(item) {
      assert data == [];
    }
    if data == [] {
      assert data + more == more;
    } else {
      assert (data + more)[1..] == more;
    }
  }

  lemma {:induction false} ReasoningFirstSplits(items: seq<Value>)
    requires ReasoningFirst(items)
    ensures items == Reasonings(items) + Spoken(items)
  {
    if items != [] {
      var rest := items[1..];
      forall i, j | 0 <= i < j < |rest| && IsReasoning(rest[j]) ensures IsReasoning(rest[i]) {
        assert rest[i] == items[i + 1] && rest[j] == items[j + 1];
      }
      hide IsReasoning, ReasoningFirst;
      ReasoningFirstSplits(rest);
      assert items == [items[0]] + rest;
      if IsReasoning(items[0]) {
        ConcatAssociative([items[0]], Reasonings(rest), Spoken(rest));
      } else {
        NoReasoningAfter(items);
        NoReasoningLeft(rest);
      }
    }
  }

  lemma {:induction false} NoReasoningAfter(items: seq<Value>)
    requires ReasoningFirst(items) && items != [] && !IsReasoning(items[0])
    ensures forall i | 0 <= i < |items[1..]| :: !IsReasoning(items[1..][i])
  {
    forall i | 0 <= i < |items[1..]|
      ensures !IsReasoning(items[1..][i])
    {
      assert items[1..][i] == items[i + 1];
    }
  }

  lemma {:induction false} NoReasoningLeft(items: seq<Value>)
    requires forall i | 0 <= i < |items| :: !IsReasoning(items[i])
    ensures Reasonings(items) == []
  {
    if items != [] {
      NoReasoningLeft(items[1..]);
    }
  }

  /** Reasoning followed by spoken items has the replayable shape. */
  lemma {:induction false} ShapeOfReplay(reasoning: seq<Value>, spoken: seq<Value>)
    requires AllReplayable(reasoning) && forall i | 0 <= i < |reasoning| :: IsReasoning(reasoning[i])
    requires AllReplayable(spoken) && forall i | 0 <= i < |spoken| :: !IsReasoning(spoken[i])
    requires NoAdjacentMessages(spoken)
    ensures AllReplayable(reasoning + spoken) && ReasoningFirst(reasoning + spoken)
    ensures NoAdjacentMessages(reasoning + spoken)
  {
    var all, split := reasoning + spoken, |reasoning|;
    forall i | 0 <= i < |all| - 1
      ensures !(IsAssistantMessage(all[i]) && IsAssistantMessage(all[i + 1]))
    {
      if i >= split {
        assert all[i] == spoken[i - split] && all[i + 1] == spoken[i - split + 1];
      } else {
        assert all[i] == reasoning[i];
      }
    }
  }

  lemma {:induction false} SpokenPartAdjacency(items: seq<Value>)
    requires ReasoningFirst(items) && NoAdjacentMessages(items)
    ensures NoAdjacentMessages(Spoken(items))
  {
    ReasoningFirstSplits(items);
    var split := |Reasonings(items)|;
    forall i | 0 <= i < |Spoken(items)| - 1
      ensures !(IsAssistantMessage(Spoken(items)[i]) && IsAssistantMessage(Spoken(items)[i + 1]))
    {
      assert Spoken(items)[i] == items[i + split] && Spoken(items)[i + 1] == items[i + split + 1];
    }
  }

  lemma {:induction false} ReplayOfParsed(output: seq<Value>, show: Value -> string)
    requires NoImages(output) && ParseOutput(output, show).Some?
    ensures var data := ParseOutput(output, show).value;
            ReplayItems(data) == ReasoningItems(data) + AssistantItems(data, [])
  {
    ParsedHasNoResults(output, show);
  }

  lemma {:induction false} RoundTripNeeds(output: seq<Value>, show: Value -> string)
    requires NoImages(output) && ParseOutput(output, show).Some?
    requires ReplayItems(ParseOutput(output, show).value) == CanonicalOutput(output)
    ensures var canonical := CanonicalOutput(output);
            AllReplayable(canonical) && ReasoningFirst(canonical) && NoAdjacentMessages(canonical)
  {
    var data := ParseOutput(output, show).value;
    ReplayOfParsed(output, show);
    ReasoningItemsShape(data);
    AssistantItemsShape(data, []);
    ShapeOfReplay(ReasoningItems(data), AssistantItems(data, []));
  }

  lemma {:induction false} RoundTripSuffices(output: seq<Value>, show: Value -> string)
    requires NoImages(output) && ParseOutput(output, show).Some?
    requires var canonical := CanonicalOutput(output);
             AllReplayable(canonical) && ReasoningFirst(canonical) && NoAdjacentMessages(canonical)
    ensures ReplayItems(ParseOutput(output, show).value) == CanonicalOutput(output)
  {
    hide ReplayItems, Canonical, CanonicalOutput, ParseOutput, ReasoningItems, AssistantItems, Replayable, IsReasoning,
         HasImage;
    ReplayOfParsed(output, show);
    ReasoningFirstSplits(CanonicalOutput(output));
    SpokenPartAdjacency(CanonicalOutput(output));
    ReasoningPart(output, show);
    SpokenPart(output, show, []);
  }

  /**
   The round trip, exactly: replaying the parsed message gives the canonical items if and only if every
   canonical item is replayable on its own, encrypted reasoning comes first, and no two assistant messages
   follow each other.
   */
  lemma {:induction false} RoundTrip(output: seq<Value>, show: Value -> string)
    requires NoImages(output) && ParseOutput(output, show).Some?
    ensures var canonical := CanonicalOutput(output);
            ReplayItems(ParseOutput(output, show).value) == canonical
            <==> AllReplayable(canonical) && ReasoningFirst(canonical) && NoAdjacentMessages(canonical)
  {
    var canonical := CanonicalOutput(output);
    if ReplayItems(ParseOutput(output, show).value) == canonical {
      RoundTripNeeds(output, show);
    }
    if AllReplayable(canonical) && ReasoningFirst(canonical) && NoAdjacentMessages(canonical) {
      RoundTripSuffices(output, show);
    }
  }
}
