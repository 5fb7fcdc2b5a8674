/** When the arguments of a call are emitted again after it has been reported. */
module StreamRepeats {
  import opened Wrappers
  import opened Json
  import opened Text
  import opened ResponsesInput
  import opened StreamEvents

  /** The ids an arguments delta carries; none for any other event. */
  function DeltaKeys(event: Value): seq<string> {
    var kind, callId := StrField(event, "type"), StrField(event, "call_id");
    var itemId := StrField(event, "item_id").Or(callId);
    if kind in {Some("response.custom_tool_call_input.delta"), Some("response.function_call_arguments.delta")}
       && StrField(event, "delta").Some? && itemId.Some? then Keys(itemId.value, callId)
    else []
  }

  /** Something emitted carries the id. */
  predicate Carries(emitted: seq<Emission>, k: string) {
    exists i | 0 <= i < |emitted| :: k in EmissionKeys(emitted[i])
  }

  lemma {:induction false} CarriesConcat(a: seq<Emission>, b: seq<Emission>, k: string)
    ensures Carries(a + b, k) <==> Carries(a, k) || Carries(b, k)
  {
    var all := a + b;
    forall i | 0 <= i < |all|
      ensures all[i] == if i < |a| then a[i] else b[i - |a|]
    {
    }
    if Carries(a, k) {
      var i :| 0 <= i < |a| && k in EmissionKeys(a[i]);
      assert k in EmissionKeys(all[i]);
    }
    if Carries(b, k) {
      var i :| 0 <= i < |b| && k in EmissionKeys(b[i]);
      assert k in EmissionKeys(all[|a| + i]);
    }
  }

  /** A call one of whose ids is marked gets no whole-arguments event that carries it. */
  lemma {:induction false} WholeSkips(streamed: seq<string>, item: Value, show: Value -> string, k: string)
    requires k in streamed
    ensures !Carries(AsSeq(WholeCall(streamed, item, show).1), k) && k in WholeCall(streamed, item, show).0
  {
    hide Arguments, Keys;
    var whole := WholeCall(streamed, item, show).1;
    assert whole.Some? ==> EmissionKeys(whole.value) == CallKeys(item) && !Overlaps(CallKeys(item), streamed);
  }

  /** One event emits a marked id exactly when it is a delta that carries it. */
  lemma {:induction false} FeedKnown(a: Accumulator, event: Value, show: Value -> string, k: string)
    requires k in a.streamed
    ensures var (after, emitted) := Feed(a, event, show);
            k in after.streamed && (Carries(emitted, k) <==> k in DeltaKeys(event))
  {
    if StrField(event, "type") == Some("response.output_item.done") {
      DoneKnown(a, event, show, k);
    } else {
      PartKnown(a, event, show, k);
    }
  }

  lemma {:induction false} DoneKnown(a: Accumulator, event: Value, show: Value -> string, k: string)
    requires k in a.streamed && StrField(event, "type") == Some("response.output_item.done")
    ensures var (after, emitted) := Feed(a, event, show);
            k in after.streamed && !Carries(emitted, k) && DeltaKeys(event) == []
  {
    hide Keys, WholeCall, Push, Carries;
    NothingCarried(k);
    if Get(event, "item").Some? {
      WholeSkips(a.streamed, Get(event, "item").value, show, k);
    }
  }

  lemma {:induction false} PartKnown(a: Accumulator, event: Value, show: Value -> string, k: string)
    requires k in a.streamed && StrField(event, "type") != Some("response.output_item.done")
    ensures var (after, emitted) := Feed(a, event, show);
            k in after.streamed && (Carries(emitted, k) <==> k in DeltaKeys(event))
  {
    hide Keys, WholeCall, ToolName, Push, IndexField;
    var emitted := Feed(a, event, show).1;
    if emitted != [] {
      assert Carries(emitted, k) <==> k in EmissionKeys(emitted[0]);
    }
  }

  lemma {:induction false} FeedAllKnown(a: Accumulator, events: seq<Value>, show: Value -> string, k: string)
    requires k in a.streamed
    ensures var (after, emitted) := FeedAll(a, events, show);
            && k in after.streamed
            && (Carries(emitted, k) <==> exists j | 0 <= j < |events| :: k in DeltaKeys(events[j]))
    decreases |events|
  {
    hide Feed, DeltaKeys, Carries;
    if events == [] {
      assert !Carries([], k) by {
        NothingCarried(k);
      }
    } else {
      var last := |events| - 1;
      var (before, emitted) := FeedAll(a, events[..last], show);
      FeedAllKnown(a, events[..last], show, k);
      FeedKnown(before, events[last], show, k);
      CarriesConcat(emitted, Feed(before, events[last], show).1, k);
      assert forall j | 0 <= j < last :: events[..last][j] == events[j];
    }
  }

  lemma {:induction false} NothingCarried(k: string)
    ensures !Carries([], k)
  {
  }

  lemma {:induction false} MissingKnown(streamed: seq<string>, items: seq<Value>, show: Value -> string, k: string)
    requires k in streamed
    ensures var (after, missing) := Missing(streamed, items, show);
            k in after && !Carries(missing, k)
    decreases |items|
  {
    hide WholeCall, Carries;
    if items == [] {
      NothingCarried(k);
    } else {
      var last := |items| - 1;
      var (before, missing) := Missing(streamed, items[..last], show);
      MissingKnown(streamed, items[..last], show, k);
      WholeSkips(before, items[last], show, k);
      CarriesConcat(missing, AsSeq(WholeCall(before, items[last], show).1), k);
    }
  }

  lemma {:induction false} FeedAllConcat(a: Accumulator, first: seq<Value>, rest: seq<Value>, show: Value -> string)
    ensures var (between, emitted) := FeedAll(a, first, show);
            var (after, more) := FeedAll(between, rest, show);
            FeedAll(a, first + rest, show) == (after, emitted + more)
    decreases |rest|
  {
    hide Feed;
    var (between, emitted) := FeedAll(a, first, show);
    if rest == [] {
      assert first + rest == first && emitted + [] == emitted;
    } else {
      var last := |rest| - 1;
      FeedAllConcat(a, first, rest[..last], show);
      assert (first + rest)[..|first + rest| - 1] == first + rest[..last] && (first + rest)[|first + rest| - 1] == rest[last];
      var (before, more) := FeedAll(between, rest[..last], show);
      ConcatAssociative(emitted, more, Feed(before, rest[last], show).1);
    }
  }

  /**
   For every order of events: once an id of a call has been emitted, whole or in part, it is emitted again if and only
   if a later arguments delta carries it. So arguments never come whole a second time, but a delta that follows the
   whole event repeats them.
   */
  lemma {:induction false} ArgumentsAgain(events: seq<Value>, response: Value, show: Value -> string, n: nat, p: nat,
                                          k: string)
    requires n <= |events| && p < |FeedAll(FRESH, events[..n], show).1|
    requires k in EmissionKeys(FeedAll(FRESH, events[..n], show).1[p])
    ensures var first, all := FeedAll(FRESH, events[..n], show).1, Complete(events, response, show).emitted;
            && first <= all
            && (Carries(all[|first|..], k) <==> exists j | n <= j < |events| :: k in DeltaKeys(events[j]))
  {
    hide FeedAll, Missing, DeltaKeys, Carries, Merged, EmissionKeys, OutputItems, WholeIsFresh;
    var (a, first) := FeedAll(FRESH, events[..n], show);
    var (after, later) := FeedAll(a, events[n..], show);
    var missing := Missing(after.streamed, OutputItems(response) + after.items, show).1;
    FeedAllKeeps(events[..n], show);
    assert events[..n] + events[n..] == events;
    FeedAllConcat(FRESH, events[..n], events[n..], show);
    FeedAllKnown(a, events[n..], show, k);
    MissingKnown(after.streamed, OutputItems(response) + after.items, show, k);
    CarriesConcat(later, missing, k);
    ConcatAssociative(first, later, missing);
    assert Complete(events, response, show).emitted == first + (later + missing);
    assert (first + (later + missing))[|first|..] == later + missing;
    assert forall j | n <= j < |events| :: events[n..][j - n] == events[j];
    assert forall j | 0 <= j < |events[n..]| :: events[n..][j] == events[n + j];
  }

  const CALL: Value := Obj(map["type" := Str("function_call"), "id" := Str("a"), "arguments" := Str("{}")])

  const DONE: Value := Obj(map["type" := Str("response.output_item.done"), "item" := CALL])

  const DELTA: Value :=
    Obj(map["type" := Str("response.function_call_arguments.delta"), "item_id" := Str("a"), "delta" := Str("{}")])

  const WHOLE: Emission := ToolInput(true, "a", None, None, "{}")

  const AGAIN: Emission := ToolInput(false, "a", None, None, "{}")

  /** The smallest run that repeats arguments: the call is done, then a delta for it arrives. */
  lemma {:induction false} DeltaAfterWhole(show: Value -> string)
    ensures FeedAll(FRESH, [DONE, DELTA], show).1 == [WHOLE, AGAIN]
  {
    hide Feed;
    var events := [DONE, DELTA];
    var one := Feed(FRESH, DONE, show).0;
    assert events[..1] == [DONE] && [DONE][..0] == [];
    CallIsDone(show);
    DeltaComes(one, show);
    assert FeedAll(FRESH, [], show) == (FRESH, []);
    assert FeedAll(FRESH, [DONE], show) == (one, [] + [WHOLE]);
    assert [] + [WHOLE] + [AGAIN] == [WHOLE, AGAIN];
  }

  lemma {:induction false} CallIsDone(show: Value -> string)
    ensures Feed(FRESH, DONE, show).1 == [WHOLE] && Feed(FRESH, DONE, show).0.items == [CALL]
  {
    hide Keys;
    assert IsCall(CALL) && ItemId(CALL) == Some("a") && CallId(CALL) == None && Arguments(CALL, show) == "{}";
    assert !Overlaps(CallKeys(CALL), []);
    assert WholeCall([], CALL, show).1 == Some(WHOLE);
    assert Push([], CALL) == [CALL];
  }

  lemma {:induction false} DeltaComes(a: Accumulator, show: Value -> string)
    requires a.items == [CALL]
    ensures Feed(a, DELTA, show).1 == [AGAIN]
  {
    hide Keys;
    assert [CALL][1..] == [] && ToolName([], "a", None) == None;
    assert ToolName([CALL], "a", None) == None;
    assert InputDelta(a, DELTA) == Some(AGAIN);
  }
}
