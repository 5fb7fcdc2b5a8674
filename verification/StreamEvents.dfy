/**
 The state machine over the events of one streamed response: which items were seen, which tool calls already
 had arguments streamed, and the final response that merges both.
 */
module StreamEvents {
  import opened Wrappers
  import opened Json
  import opened Text
  import opened ResponsesInput

  datatype Accumulator = Accumulator(
    items: seq<Value>,
    activeOutput: Option<string>,
    activeReasoning: Option<string>,
    streamed: seq<string>)

  const FRESH: Accumulator := Accumulator([], None, None, [])

  /** What a listener receives. `whole` marks the events that carry all arguments of a call at once. */
  datatype Emission =
    | ToolInput(whole: bool, itemId: string, callId: Option<string>, name: Option<string>, delta: string)
    | OutputText(textItem: Option<string>, text: string)
    | ReasoningDelta(deltaItem: Option<string>, reasoning: string, deltaIndex: int)
    | ReasoningPart(partItem: Option<string>, partIndex: int)

  // ----- Keys of tool calls -----

  /** The non-blank ids a call is known by, trimmed and without repetition. */
  function Keys(itemId: string, callId: Option<string>): (keys: seq<string>)
    ensures "" !in keys
    ensures forall i, j | 0 <= i < j < |keys| :: keys[i] != keys[j]
  {
    var item := if Trim(itemId) == "" then [] else [Trim(itemId)];
    if callId.Some? && Trim(callId.value) != "" && Trim(callId.value) !in item then item + [Trim(callId.value)] else item
  }

  function EmissionKeys(e: Emission): seq<string> {
    if e.ToolInput? then Keys(e.itemId, e.callId) else []
  }

  predicate IsCall(item: Value) {
    StrField(item, "type") == Some("function_call")
  }

  function CallId(item: Value): Option<string> {
    StrField(item, "call_id")
  }

  /** The id a call is reported under: its own, else the one of the call. */
  function ItemId(item: Value): Option<string> {
    StrField(item, "id").Or(CallId(item))
  }

  function CallKeys(item: Value): seq<string> {
    if IsCall(item) && ItemId(item).Some? then Keys(ItemId(item).value, CallId(item)) else []
  }

  function AddMissing(streamed: seq<string>, keys: seq<string>): (r: seq<string>)
    ensures streamed <= r
    ensures forall k :: k in r <==> k in streamed || k in keys
    decreases |keys|
  {
    if keys == [] then streamed
    else AddMissing(if keys[0] in streamed then streamed else streamed + [keys[0]], keys[1..])
  }

  predicate Overlaps(a: seq<string>, b: seq<string>) {
    exists k | k in a :: k in b
  }

  function Arguments(item: Value, show: Value -> string): string {
    ArgumentsText(Get(item, "arguments"), show)
  }

  /** `tool_call_stream_event_from_item`: the new streamed set and the event, if the call still needs one. */
  function WholeCall(streamed: seq<string>, item: Value, show: Value -> string): (seq<string>, Option<Emission>) {
    if !IsCall(item) || ItemId(item).None? then (streamed, None)
    else
      var keys := CallKeys(item);
      if Overlaps(keys, streamed) then (AddMissing(streamed, keys), None)
      else
        (AddMissing(streamed, keys),
         Some(ToolInput(true, ItemId(item).value, CallId(item), StrField(item, "name"), Arguments(item, show))))
  }

  // ----- Items -----

  function FindId(items: seq<Value>, id: string): (i: nat)
    ensures i <= |items|
    ensures i < |items| ==> StrField(items[i], "id") == Some(id)
    ensures forall j | 0 <= j < i :: StrField(items[j], "id") != Some(id)
  {
    if items == [] || StrField(items[0], "id") == Some(id) then 0 else 1 + FindId(items[1..], id)
  }

  function Push(items: seq<Value>, item: Value): seq<Value> {
    var id := StrField(item, "id");
    if id.Some? && FindId(items, id.value) < |items| then items[FindId(items, id.value) := item] else items + [item]
  }

  /** The first matching item that has a name gives the name. */
  function ToolName(items: seq<Value>, itemId: string, callId: Option<string>): Option<string> {
    if items == [] then None
    else
      var matches := StrField(items[0], "id") == Some(itemId) || (callId.Some? && CallId(items[0]) == callId);
      if matches && StrField(items[0], "name").Some? then StrField(items[0], "name")
      else ToolName(items[1..], itemId, callId)
  }

  // ----- Events -----

  function RecordDone(a: Accumulator, item: Value): Accumulator {
    var done := StrField(item, "id");
    Accumulator(Push(a.items, item),
                if a.activeOutput == done then None else a.activeOutput,
                if StrField(item, "type") == Some("reasoning") then None else a.activeReasoning,
                a.streamed)
  }

  function RecordAdded(a: Accumulator, item: Value): Accumulator {
    var id := StrField(item, "id");
    Accumulator(Push(a.items, item),
                if id.Some? then id else a.activeOutput,
                if id.Some? && StrField(item, "type") == Some("reasoning") then id else a.activeReasoning,
                a.streamed)
  }

  /** `provider_tool_call_input_delta_event`. */
  function InputDelta(a: Accumulator, event: Value): Option<Emission> {
    var delta, callId := StrField(event, "delta"), StrField(event, "call_id");
    var itemId := StrField(event, "item_id").Or(callId);
    if delta.None? || itemId.None? then None
    else Some(ToolInput(false, itemId.value, callId,
                        StrField(event, "name").Or(ToolName(a.items, itemId.value, callId)), delta.value))
  }

  function IndexField(event: Value): Option<int> {
    var index := Get(event, "summary_index");
    if index.Some? && index.value.Number? then Some(index.value.number) else None
  }

  function AsSeq(e: Option<Emission>): seq<Emission> {
    if e.Some? then [e.value] else []
  }

  /** One event that does not end the response. */
  function Feed(a: Accumulator, event: Value, show: Value -> string): (Accumulator, seq<Emission>) {
    var kind, item := StrField(event, "type"), Get(event, "item");
    if kind == Some("response.output_item.done") then
      if item.None? then (a, [])
      else
        var (streamed, whole) := WholeCall(a.streamed, item.value, show);
        (RecordDone(a.(streamed := streamed), item.value), AsSeq(whole))
    else if kind == Some("response.output_item.added") then
      (if item.None? then a else RecordAdded(a, item.value), [])
    else if kind in {Some("response.custom_tool_call_input.delta"), Some("response.function_call_arguments.delta")} then
      var delta := InputDelta(a, event);
      (if delta.None? then a else a.(streamed := AddMissing(a.streamed, EmissionKeys(delta.value))), AsSeq(delta))
    else if kind == Some("response.output_text.delta") && StrField(event, "delta").Some? then
      (a, [OutputText(a.activeOutput, StrField(event, "delta").value)])
    else if kind == Some("response.reasoning_summary_text.delta")
            && StrField(event, "delta").Some? && IndexField(event).Some? then
      (a, [ReasoningDelta(a.activeReasoning, StrField(event, "delta").value, IndexField(event).value)])
    else if kind == Some("response.reasoning_summary_part.added") && IndexField(event).Some? then
      (a, [ReasoningPart(a.activeReasoning, IndexField(event).value)])
    else (a, [])
  }

  function FeedAll(a: Accumulator, events: seq<Value>, show: Value -> string): (Accumulator, seq<Emission>)
    decreases |events|
  {
    if events == [] then (a, [])
    else
      var (before, emitted) := FeedAll(a, events[..|events| - 1], show);
      var (after, more) := Feed(before, events[|events| - 1], show);
      (after, emitted + more)
  }

  /** The whole-arguments events still missing when the response completes. */
  function Missing(streamed: seq<string>, items: seq<Value>, show: Value -> string): (seq<string>, seq<Emission>)
    decreases |items|
  {
    if items == [] then (streamed, [])
    else
      var (before, emitted) := Missing(streamed, items[..|items| - 1], show);
      var (after, whole) := WholeCall(before, items[|items| - 1], show);
      (after, emitted + AsSeq(whole))
  }

  predicate HasId(items: seq<Value>, id: Option<string>) {
    id.Some? && exists i | 0 <= i < |items| :: StrField(items[i], "id") == id
  }

  /** The merge loop: each accumulated item is appended unless its id is already there. */
  function MergeInto(output: seq<Value>, items: seq<Value>): seq<Value>
    decreases |items|
  {
    if items == [] then output
    else
      MergeInto(if HasId(output, StrField(items[0], "id")) then output else output + [items[0]], items[1..])
  }

  function Merged(response: Value, items: seq<Value>): Value {
    if response.Obj? then Obj(response.fields["output" := Arr(MergeInto(OutputItems(response), items))]) else response
  }

  /** A whole attempt: events, then the completed response. */
  datatype Attempt = Attempt(response: Value, emitted: seq<Emission>, streamed: seq<string>, items: seq<Value>)

  function Complete(events: seq<Value>, response: Value, show: Value -> string): Attempt {
    var (a, emitted) := FeedAll(FRESH, events, show);
    var (streamed, missing) := Missing(a.streamed, OutputItems(response) + a.items, show);
    Attempt(Merged(response, a.items), emitted + missing, streamed, a.items)
  }

  // ----- Arguments come whole at most once -----

  predicate Covered(emitted: seq<Emission>, streamed: seq<string>) {
    forall i, k | 0 <= i < |emitted| && k in EmissionKeys(emitted[i]) :: k in streamed
  }

  /** A whole-arguments event never shares an id with anything emitted before it. */
  predicate WholeIsFresh(emitted: seq<Emission>) {
    forall i, j | 0 <= i < j < |emitted| && emitted[j].ToolInput? && emitted[j].whole ::
      !Overlaps(EmissionKeys(emitted[j]), EmissionKeys(emitted[i]))
  }

  lemma {:induction false} AppendWhole(emitted: seq<Emission>, streamed: seq<string>, item: Value,
                                       show: Value -> string)
    requires Covered(emitted, streamed) && WholeIsFresh(emitted)
    ensures var (after, whole) := WholeCall(streamed, item, show);
            && Covered(emitted + AsSeq(whole), after) && WholeIsFresh(emitted + AsSeq(whole))
            && (forall k | k in CallKeys(item) :: k in after)
            && (forall k | k in streamed :: k in after)
  {
    var (after, whole) := WholeCall(streamed, item, show);
    if whole.Some? {
      CoverOne(emitted, streamed, whole.value);
      FreshOne(emitted, whole.value);
    } else {
      assert emitted + AsSeq(whole) == emitted;
    }
  }

  lemma {:induction false} AppendPart(emitted: seq<Emission>, streamed: seq<string>, part: seq<Emission>)
    requires Covered(emitted, streamed) && WholeIsFresh(emitted)
    requires |part| <= 1 && (part != [] ==> !(part[0].ToolInput? && part[0].whole))
    ensures WholeIsFresh(emitted + part)
    ensures Covered(emitted + part, if part == [] then streamed else AddMissing(streamed, EmissionKeys(part[0])))
  {
    if part == [] {
      assert emitted + part == emitted;
    } else {
      CoverOne(emitted, streamed, part[0]);
      FreshOne(emitted, part[0]);
      assert part == [part[0]];
    }
  }

  lemma {:induction false} CoverOne(emitted: seq<Emission>, streamed: seq<string>, e: Emission)
    requires Covered(emitted, streamed)
    ensures Covered(emitted + [e], AddMissing(streamed, EmissionKeys(e)))
  {
    var all := emitted + [e];
    forall i, k | 0 <= i < |all| && k in EmissionKeys(all[i])
      ensures k in AddMissing(streamed, EmissionKeys(e))
    {
      if i < |emitted| {
        assert all[i] == emitted[i];
      }
    }
  }

  lemma {:induction false} FreshOne(emitted: seq<Emission>, e: Emission)
    requires WholeIsFresh(emitted)
    requires e.ToolInput? && e.whole ==>
               forall i | 0 <= i < |emitted| :: !Overlaps(EmissionKeys(e), EmissionKeys(emitted[i]))
    ensures WholeIsFresh(emitted + [e])
  {
  }

  lemma {:induction false} FeedAllKeeps(events: seq<Value>, show: Value -> string)
    ensures var (a, emitted) := FeedAll(FRESH, events, show);
            Covered(emitted, a.streamed) && WholeIsFresh(emitted)
    decreases |events|
  {
    if events != [] {
      var (before, emitted) := FeedAll(FRESH, events[..|events| - 1], show);
      hide Feed, Covered, WholeIsFresh;
      FeedAllKeeps(events[..|events| - 1], show);
      FeedKeeps(before, emitted, events[|events| - 1], show);
    } else {
      assert FeedAll(FRESH, events, show) == (FRESH, []);
    }
  }

  lemma {:induction false} FeedKeeps(a: Accumulator, emitted: seq<Emission>, event: Value, show: Value -> string)
    requires Covered(emitted, a.streamed) && WholeIsFresh(emitted)
    ensures var (after, more) := Feed(a, event, show);
            Covered(emitted + more, after.streamed) && WholeIsFresh(emitted + more)
  {
    hide Covered, WholeIsFresh, WholeCall, Keys, ToolName, Push;
    var (after, more) := Feed(a, event, show);
    if StrField(event, "type") == Some("response.output_item.done") {
      if Get(event, "item").Some? {
        AppendWhole(emitted, a.streamed, Get(event, "item").value, show);
      } else {
        assert emitted + [] == emitted;
      }
    } else {
      AppendPart(emitted, a.streamed, more);
      assert after.streamed == if more == [] then a.streamed else AddMissing(a.streamed, EmissionKeys(more[0]));
    }
  }

  lemma {:induction false} MissingKeeps(emitted: seq<Emission>, streamed: seq<string>, items: seq<Value>,
                                        show: Value -> string)
    requires Covered(emitted, streamed) && WholeIsFresh(emitted)
    ensures var (after, missing) := Missing(streamed, items, show);
            Covered(emitted + missing, after) && WholeIsFresh(emitted + missing)
    decreases |items|
  {
    hide Covered, WholeIsFresh, WholeCall;
    if items == [] {
      assert emitted + [] == emitted;
    } else {
      var rest := items[..|items| - 1];
      var (before, missing) := Missing(streamed, rest, show);
      MissingKeeps(emitted, streamed, rest, show);
      AppendWhole(emitted + missing, before, items[|items| - 1], show);
      ConcatAssociative(emitted, missing, AsSeq(WholeCall(before, items[|items| - 1], show).1));
    }
  }

  lemma {:induction false} WholeMarks(streamed: seq<string>, item: Value, show: Value -> string)
    ensures var after := WholeCall(streamed, item, show).0;
            (forall k | k in CallKeys(item) :: k in after) && (forall k | k in streamed :: k in after)
  {
    hide Arguments, Keys;
  }

  lemma {:induction false} MissingGrows(streamed: seq<string>, items: seq<Value>, show: Value -> string, n: nat)
    requires n <= |items|
    ensures forall k | k in Missing(streamed, items[..n], show).0 :: k in Missing(streamed, items, show).0
    decreases |items|
  {
    hide WholeCall;
    if n < |items| {
      var rest := items[..|items| - 1];
      MissingGrows(streamed, rest, show, n);
      WholeMarks(Missing(streamed, rest, show).0, items[|items| - 1], show);
      assert rest[..n] == items[..n];
    } else {
      assert items[..n] == items;
    }
  }

  /** After the last pass every id of the item at `i` is marked. */
  lemma {:induction false} MissingMarks(streamed: seq<string>, items: seq<Value>, show: Value -> string, i: nat)
    requires i < |items|
    ensures forall k | k in CallKeys(items[i]) :: k in Missing(streamed, items, show).0
  {
    hide WholeCall, CallKeys;
    var upTo := items[..i + 1];
    assert upTo[..i] == items[..i] && upTo[i] == items[i];
    WholeMarks(Missing(streamed, items[..i], show).0, items[i], show);
    assert Missing(streamed, upTo, show).0 == WholeCall(Missing(streamed, items[..i], show).0, items[i], show).0;
    MissingGrows(streamed, items, show, i + 1);
  }

  /**
   For every order of events: a whole-arguments event is emitted for a call only when none of its non-blank ids
   was streamed before, and after completion every id of every call, in the response or accumulated, is marked.
   */
  lemma {:induction false} CallsOnce(events: seq<Value>, response: Value, show: Value -> string)
    ensures var attempt := Complete(events, response, show);
            && WholeIsFresh(attempt.emitted)
            && Covered(attempt.emitted, attempt.streamed)
            && (forall i, k | 0 <= i < |OutputItems(response)| && k in CallKeys(OutputItems(response)[i]) :: k in attempt.streamed)
            && (forall i, k | 0 <= i < |attempt.items| && k in CallKeys(attempt.items[i]) :: k in attempt.streamed)
  {
    hide FeedAll, Missing, WholeIsFresh, Covered, CallKeys, Merged, OutputItems;
    var (a, emitted) := FeedAll(FRESH, events, show);
    var all := OutputItems(response) + a.items;
    FeedAllKeeps(events, show);
    MissingKeeps(emitted, a.streamed, all, show);
    forall i | 0 <= i < |all|
      ensures forall k | k in CallKeys(all[i]) :: k in Missing(a.streamed, all, show).0
    {
      MissingMarks(a.streamed, all, show, i);
    }
    assert forall i | 0 <= i < |OutputItems(response)| :: OutputItems(response)[i] == all[i];
    assert forall i | 0 <= i < |a.items| :: a.items[i] == all[|OutputItems(response)| + i];
  }

  /**
   When the ids of a call are all blank nothing can mark it: it is reported again each time it is met. So an
   item is reported at most once exactly when it has a non-blank id.
   */
  lemma {:induction false} ReportedAgain(streamed: seq<string>, item: Value, show: Value -> string)
    requires IsCall(item) && ItemId(item).Some?
    ensures var (after, first) := WholeCall(streamed, item, show);
            WholeCall(after, item, show).1.Some? <==> CallKeys(item) == []
  {
    var keys := CallKeys(item);
    hide CallKeys, Arguments, CallId, IsCall;
    var after := WholeCall(streamed, item, show).0;
    assert forall k | k in keys :: k in after;
    assert Overlaps(keys, after) <==> keys != [] by {
      if keys != [] {
        assert keys[0] in after;
      }
    }
  }

  const BLANK_CALL: Value := Obj(map["type" := Str("function_call"), "id" := Str(""), "call_id" := Str("")])

  const BLANK_DONE: Value := Obj(map["type" := Str("response.output_item.done"), "item" := BLANK_CALL])

  /** The smallest failure: a call with blank ids that is done twice is reported twice, with the same event. */
  lemma {:induction false} BlankCallReportedTwice(show: Value -> string)
    ensures var emitted := FeedAll(FRESH, [BLANK_DONE, BLANK_DONE], show).1;
            |emitted| == 2 && emitted[0] == emitted[1] && emitted[0].ToolInput? && emitted[0].whole
  {
    hide Arguments, Push;
    var events := [BLANK_DONE, BLANK_DONE];
    assert Keys("", Some("")) == [];
    assert CallKeys(BLANK_CALL) == [] && IsCall(BLANK_CALL) && ItemId(BLANK_CALL) == Some("");
    var whole := ToolInput(true, "", Some(""), StrField(BLANK_CALL, "name"), Arguments(BLANK_CALL, show));
    assert WholeCall([], BLANK_CALL, show) == ([], Some(whole));
    assert events[..1][..0] == [] && events[..1][0] == BLANK_DONE;
    assert FeedAll(FRESH, [], show) == (FRESH, []);
    var (one, first) := Feed(FRESH, BLANK_DONE, show);
    assert one.streamed == [] && first == [whole];
    assert FeedAll(FRESH, events[..1], show) == (one, [] + [whole]);
    assert Feed(one, BLANK_DONE, show).1 == [whole];
  }
}
