/** The accumulator as the mutable object the websocket loop drives. */
module StreamAccumulation {
  import opened Wrappers
  import opened Json
  import opened ResponsesInput
  import opened StreamEvents
  import opened StreamMerge

  class StreamAccumulator {
    var items: seq<Value>
    var activeOutput: Option<string>
    var activeReasoning: Option<string>
    var streamed: seq<string>

    constructor ()
      ensures View() == FRESH
    {
      items, activeOutput, activeReasoning, streamed := [], None, None, [];
    }

    function View(): Accumulator
      reads this
    {
      Accumulator(items, activeOutput, activeReasoning, streamed)
    }

    method PushUniqueItem(item: Value)
      modifies this`items
      ensures items == Push(old(items), item)
    {
      var id := StrField(item, "id");
      if id.Some? {
        var i := 0;
        while i < |items|
          invariant 0 <= i <= |items| && items == old(items)
          invariant forall j | 0 <= j < i :: StrField(items[j], "id") != id
        {
          if StrField(items[i], "id") == id {
            items := items[i := item];
            return;
          }
          i := i + 1;
        }
      }
      items := items + [item];
    }

    method RecordOutputItemDone(event: Value)
      modifies this
      ensures View() == if Get(event, "item").Some? then RecordDone(old(View()), Get(event, "item").value) else old(View())
    {
      var item := Get(event, "item");
      if item.Some? {
        var completed := StrField(item.value, "id");
        if StrField(item.value, "type") == Some("reasoning") {
          if completed.Some? {
            activeReasoning := completed;
          }
          activeReasoning := None;
        }
        PushUniqueItem(item.value);
        if activeOutput == completed {
          activeOutput := None;
        }
      }
    }

    method RecordOutputItemAdded(event: Value)
      modifies this
      ensures View() == if Get(event, "item").Some? then RecordAdded(old(View()), Get(event, "item").value) else old(View())
    {
      var item := Get(event, "item");
      if item.None? {
        return;
      }
      var id := StrField(item.value, "id");
      if id.Some? {
        activeOutput := id;
        if StrField(item.value, "type") == Some("reasoning") {
          activeReasoning := id;
        }
      }
      PushUniqueItem(item.value);
    }

    method MarkStreamed(keys: seq<string>)
      modifies this`streamed
      ensures streamed == AddMissing(old(streamed), keys)
    {
      var i := 0;
      while i < |keys|
        invariant 0 <= i <= |keys|
        invariant AddMissing(streamed, keys[i..]) == AddMissing(old(streamed), keys)
      {
        if keys[i] !in streamed {
          streamed := streamed + [keys[i]];
        }
        assert keys[i..][1..] == keys[i + 1..];
        i := i + 1;
      }
    }

    /** The event with all arguments of a call that still needs one. */
    method ToolCallEvent(item: Value, show: Value -> string) returns (event: Option<Emission>)
      modifies this`streamed
      ensures (streamed, event) == WholeCall(old(streamed), item, show)
    {
      if !IsCall(item) || ItemId(item).None? {
        return None;
      }
      var keys := CallKeys(item);
      if exists k | k in keys :: k in streamed {
        MarkStreamed(keys);
        return None;
      }
      MarkStreamed(keys);
      event := Some(ToolInput(true, ItemId(item).value, CallId(item), StrField(item, "name"), Arguments(item, show)));
    }

    method MissingToolCallEvents(response: Value, show: Value -> string) returns (events: seq<Emission>)
      modifies this`streamed
      ensures (streamed, events) == Missing(old(streamed), OutputItems(response) + items, show)
    {
      hide IsCall, ItemId, CallKeys, OutputItems, WholeCall;
      var all := OutputItems(response) + items;
      events := [];
      var i := 0;
      while i < |all|
        invariant 0 <= i <= |all|
        invariant (streamed, events) == Missing(old(streamed), all[..i], show)
      {
        var event := ToolCallEvent(all[i], show);
        assert all[..i + 1][..i] == all[..i] && all[..i + 1][i] == all[i];
        events := events + AsSeq(event);
        i := i + 1;
      }
      assert all[..i] == all;
    }

    /** One text frame of the websocket loop, as long as it does not end the response. */
    method Receive(event: Value, show: Value -> string) returns (emitted: seq<Emission>)
      modifies this
      ensures (View(), emitted) == Feed(old(View()), event, show)
    {
      emitted := [];
      var kind := StrField(event, "type");
      if kind == Some("response.output_item.done") {
        var whole := None;
        if Get(event, "item").Some? {
          whole := ToolCallEvent(Get(event, "item").value, show);
        }
        RecordOutputItemDone(event);
        emitted := AsSeq(whole);
      } else if kind == Some("response.output_item.added") {
        RecordOutputItemAdded(event);
      } else if kind == Some("response.custom_tool_call_input.delta") || kind == Some("response.function_call_arguments.delta") {
        var delta := InputDelta(View(), event);
        if delta.Some? {
          MarkStreamed(EmissionKeys(delta.value));
          emitted := [delta.value];
        }
      } else if kind == Some("response.output_text.delta") {
        if StrField(event, "delta").Some? {
          emitted := [OutputText(activeOutput, StrField(event, "delta").value)];
        }
      } else if kind == Some("response.reasoning_summary_text.delta") {
        if StrField(event, "delta").Some? && IndexField(event).Some? {
          emitted := [ReasoningDelta(activeReasoning, StrField(event, "delta").value, IndexField(event).value)];
        }
      } else if kind == Some("response.reasoning_summary_part.added") {
        if IndexField(event).Some? {
          emitted := [ReasoningPart(activeReasoning, IndexField(event).value)];
        }
      }
    }
  }

  method MergeStreamedOutput(response: Value, items: seq<Value>) returns (merged: Value)
    ensures merged == Merged(response, items)
  {
    if !response.Obj? {
      return response;
    }
    var output := OutputItems(response);
    var i := 0;
    while i < |items|
      invariant 0 <= i <= |items|
      invariant MergeInto(output, items[i..]) == MergeInto(OutputItems(response), items)
    {
      var id := StrField(items[i], "id");
      var present := id.Some? && exists j | 0 <= j < |output| :: StrField(output[j], "id") == id;
      assert present == HasId(output, id);
      assert items[i..][1..] == items[i + 1..];
      if !present {
        output := output + [items[i]];
      }
      i := i + 1;
    }
    merged := Obj(response.fields["output" := Arr(output)]);
  }

  /**
   The receive loop of one attempt that ends with `response.completed`: a whole-arguments event never shares an id
   with anything emitted before it, and the result is the merged response, no accumulated item twice.
   */
  method ReceiveResponse(events: seq<Value>, response: Value, show: Value -> string) returns (attempt: Attempt)
    ensures attempt == Complete(events, response, show)
    ensures WholeIsFresh(attempt.emitted) && UniqueIds(attempt.items)
  {
    var accumulator := new StreamAccumulator();
    var emitted := [];
    var i := 0;
    while i < |events|
      invariant 0 <= i <= |events|
      invariant (accumulator.View(), emitted) == FeedAll(FRESH, events[..i], show)
    {
      var more := accumulator.Receive(events[i], show);
      assert events[..i + 1][..i] == events[..i] && events[..i + 1][i] == events[i];
      emitted := emitted + more;
      i := i + 1;
    }
    assert events[..i] == events;
    var missing := accumulator.MissingToolCallEvents(response, show);
    var merged := MergeStreamedOutput(response, accumulator.items);
    attempt := Attempt(merged, emitted + missing, accumulator.streamed, accumulator.items);
    CallsOnce(events, response, show);
    AccumulatedItems(events, show);
  }
}
