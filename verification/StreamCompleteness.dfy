/** No tool call goes silent: every id marked as streamed leads back to an event that carried arguments. */
module StreamCompleteness {
  import opened Wrappers
  import opened Json
  import opened ResponsesInput
  import opened StreamEvents

  /** The items the accumulator looked at as possible calls, in order. */
  function Examined(event: Value): seq<Value> {
    if StrField(event, "type") == Some("response.output_item.done") && Get(event, "item").Some?
    then [Get(event, "item").value] else []
  }

  function AllExamined(events: seq<Value>): seq<Value>
    decreases |events|
  {
    if events == [] then [] else AllExamined(events[..|events| - 1]) + Examined(events[|events| - 1])
  }

  predicate SameCall(calls: seq<Value>, a: string, b: string) {
    exists i | 0 <= i < |calls| :: a in CallKeys(calls[i]) && b in CallKeys(calls[i])
  }

  predicate Reported(emitted: seq<Emission>, k: string) {
    exists i | 0 <= i < |emitted| :: k in EmissionKeys(emitted[i])
  }

  /** A chain of ids: the first was reported with arguments, neighbours are ids of one call. */
  predicate Chain(emitted: seq<Emission>, calls: seq<Value>, ids: seq<string>) {
    && ids != [] && Reported(emitted, ids[0])
    && forall j | 0 <= j < |ids| - 1 :: SameCall(calls, ids[j], ids[j + 1])
  }

  ghost predicate Linked(emitted: seq<Emission>, calls: seq<Value>, k: string) {
    exists ids: seq<string> :: Chain(emitted, calls, ids) && ids[|ids| - 1] == k
  }

  ghost predicate AllLinked(emitted: seq<Emission>, calls: seq<Value>, streamed: seq<string>) {
    forall k | k in streamed :: Linked(emitted, calls, k)
  }

  function WholeEvent(call: Value, show: Value -> string): Emission
    requires ItemId(call).Some?
  {
    ToolInput(true, ItemId(call).value, CallId(call), StrField(call, "name"), Arguments(call, show))
  }

  /** Every whole-arguments event says what some examined call says. */
  predicate Truthful(emitted: seq<Emission>, calls: seq<Value>, show: Value -> string) {
    forall i | 0 <= i < |emitted| && emitted[i].ToolInput? && emitted[i].whole ::
      exists j | 0 <= j < |calls| :: IsCall(calls[j]) && ItemId(calls[j]).Some? && emitted[i] == WholeEvent(calls[j], show)
  }

  lemma {:induction false} LinkedGrows(emitted: seq<Emission>, calls: seq<Value>, more: seq<Emission>,
                                       moreCalls: seq<Value>, k: string)
    ensures Linked(emitted, calls, k) ==> Linked(emitted + more, calls + moreCalls, k)
  {
    if Linked(emitted, calls, k) {
      var ids :| Chain(emitted, calls, ids) && ids[|ids| - 1] == k;
      ChainGrows(emitted, calls, more, moreCalls, ids);
    }
  }

  lemma {:induction false} ChainGrows(emitted: seq<Emission>, calls: seq<Value>, more: seq<Emission>,
                                      moreCalls: seq<Value>, ids: seq<string>)
    ensures Chain(emitted, calls, ids) ==> Chain(emitted + more, calls + moreCalls, ids)
  {
    if Chain(emitted, calls, ids) {
      var i :| 0 <= i < |emitted| && ids[0] in EmissionKeys(emitted[i]);
      assert (emitted + more)[i] == emitted[i];
      forall j | 0 <= j < |ids| - 1
        ensures SameCall(calls + moreCalls, ids[j], ids[j + 1])
      {
        assert SameCall(calls, ids[j], ids[j + 1]);
        var c :| 0 <= c < |calls| && ids[j] in CallKeys(calls[c]) && ids[j + 1] in CallKeys(calls[c]);
        assert (calls + moreCalls)[c] == calls[c];
      }
    }
  }

  lemma {:induction false} LinkedByEvent(emitted: seq<Emission>, calls: seq<Value>, e: Emission, k: string)
    requires k in EmissionKeys(e)
    ensures Linked(emitted + [e], calls, k)
  {
    assert (emitted + [e])[|emitted|] == e;
    assert Chain(emitted + [e], calls, [k]);
  }

  lemma {:induction false} ChainExtends(emitted: seq<Emission>, calls: seq<Value>, ids: seq<string>, k: string)
    ensures Chain(emitted, calls, ids) && SameCall(calls, ids[|ids| - 1], k) ==> Chain(emitted, calls, ids + [k])
  {
    var longer := ids + [k];
    if Chain(emitted, calls, ids) && SameCall(calls, ids[|ids| - 1], k) {
      forall j | 0 <= j < |longer| - 1
        ensures SameCall(calls, longer[j], longer[j + 1])
      {
        if j < |ids| - 1 {
          assert longer[j] == ids[j] && longer[j + 1] == ids[j + 1];
          assert SameCall(calls, ids[j], ids[j + 1]);
        }
      }
    }
  }

  lemma {:induction false} LinkedByCall(emitted: seq<Emission>, calls: seq<Value>, call: Value, known: string,
                                        k: string)
    requires known in CallKeys(call) && k in CallKeys(call)
    ensures Linked(emitted, calls, known) ==> Linked(emitted, calls + [call], k)
  {
    hide CallKeys, EmissionKeys;
    if Linked(emitted, calls, known) {
      LinkedGrows(emitted, calls, [], [call], known);
      assert emitted + [] == emitted;
      var ids :| Chain(emitted, calls + [call], ids) && ids[|ids| - 1] == known;
      assert (calls + [call])[|calls|] == call;
      ChainExtends(emitted, calls + [call], ids, k);
      assert (ids + [k])[|ids + [k]| - 1] == k;
    }
  }

  lemma {:induction false} WholeCallLinks(emitted: seq<Emission>, calls: seq<Value>, streamed: seq<string>, item: Value,
                       show: Value -> string)
    requires AllLinked(emitted, calls, streamed)
    ensures var (after, whole) := WholeCall(streamed, item, show);
            AllLinked(emitted + AsSeq(whole), calls + [item], after)
  {
    var (after, whole) := WholeCall(streamed, item, show);
    forall k | k in after
      ensures Linked(emitted + AsSeq(whole), calls + [item], k)
    {
      if k in streamed {
        LinkedGrows(emitted, calls, AsSeq(whole), [item], k);
      } else {
        NewKeyLinks(emitted, calls, streamed, item, show, k);
      }
    }
  }

  /** A newly marked id is one of the item; the item is either reported or already linked by one of its ids. */
  lemma {:induction false} NewKey(streamed: seq<string>, item: Value, show: Value -> string, k: string)
    requires k !in streamed && k in WholeCall(streamed, item, show).0
    ensures k in CallKeys(item)
    ensures var whole := WholeCall(streamed, item, show).1;
            if whole.Some? then EmissionKeys(whole.value) == CallKeys(item) else Overlaps(CallKeys(item), streamed)
  {
  }

  lemma {:induction false} NewKeyLinks(emitted: seq<Emission>, calls: seq<Value>, streamed: seq<string>, item: Value,
                    show: Value -> string, k: string)
    requires AllLinked(emitted, calls, streamed) && k !in streamed && k in WholeCall(streamed, item, show).0
    ensures Linked(emitted + AsSeq(WholeCall(streamed, item, show).1), calls + [item], k)
  {
    hide CallKeys, EmissionKeys, WholeCall, Linked;
    var whole := WholeCall(streamed, item, show).1;
    NewKey(streamed, item, show, k);
    if whole.Some? {
      LinkedByEvent(emitted, calls + [item], whole.value, k);
      assert AsSeq(whole) == [whole.value];
    } else {
      var known :| known in CallKeys(item) && known in streamed;
      LinkedByCall(emitted, calls, item, known, k);
      assert emitted + AsSeq(whole) == emitted;
    }
  }

  lemma {:induction false} WholeCallTruthful(streamed: seq<string>, item: Value, show: Value -> string)
    ensures Truthful(AsSeq(WholeCall(streamed, item, show).1), [item], show)
  {
    assert [item][0] == item;
  }

  lemma {:induction false} TruthfulGrows(emitted: seq<Emission>, calls: seq<Value>, more: seq<Emission>,
                                         moreCalls: seq<Value>,
                      show: Value -> string)
    requires Truthful(emitted, calls, show) && Truthful(more, moreCalls, show)
    ensures Truthful(emitted + more, calls + moreCalls, show)
  {
    var all, allCalls := emitted + more, calls + moreCalls;
    forall i | 0 <= i < |all| && all[i].ToolInput? && all[i].whole
      ensures exists j | 0 <= j < |allCalls| ::
                IsCall(allCalls[j]) && ItemId(allCalls[j]).Some? && all[i] == WholeEvent(allCalls[j], show)
    {
      if i < |emitted| {
        assert all[i] == emitted[i];
        var j :| 0 <= j < |calls| && IsCall(calls[j]) && ItemId(calls[j]).Some? && emitted[i] == WholeEvent(calls[j], show);
        assert allCalls[j] == calls[j];
      } else {
        assert all[i] == more[i - |emitted|];
        var j :| 0 <= j < |moreCalls| && IsCall(moreCalls[j]) && ItemId(moreCalls[j]).Some?
                 && more[i - |emitted|] == WholeEvent(moreCalls[j], show);
        assert allCalls[|calls| + j] == moreCalls[j];
      }
    }
  }

  lemma {:induction false} FeedLinks(emitted: seq<Emission>, calls: seq<Value>, a: Accumulator, event: Value,
                                     show: Value -> string)
    requires AllLinked(emitted, calls, a.streamed)
    ensures var (after, more) := Feed(a, event, show);
            AllLinked(emitted + more, calls + Examined(event), after.streamed)
    ensures Truthful(Feed(a, event, show).1, Examined(event), show)
  {
    hide ToolName, Push, IndexField, Keys;
    var (after, more) := Feed(a, event, show);
    if Examined(event) != [] {
      WholeCallLinks(emitted, calls, a.streamed, Get(event, "item").value, show);
    } else {
      forall k | k in after.streamed
        ensures Linked(emitted + more, calls + [], k)
      {
        if k in a.streamed {
          LinkedGrows(emitted, calls, more, [], k);
        } else {
          LinkedByEvent(emitted, calls + [], more[0], k);
          assert more == [more[0]];
        }
      }
    }
  }

  lemma {:induction false} FeedAllLinks(events: seq<Value>, show: Value -> string)
    ensures var (a, emitted) := FeedAll(FRESH, events, show);
            AllLinked(emitted, AllExamined(events), a.streamed) && Truthful(emitted, AllExamined(events), show)
    decreases |events|
  {
    if events != [] {
      var rest, event := events[..|events| - 1], events[|events| - 1];
      var (before, emitted) := FeedAll(FRESH, rest, show);
      FeedAllLinks(rest, show);
      FeedLinks(emitted, AllExamined(rest), before, event, show);
      TruthfulGrows(emitted, AllExamined(rest), Feed(before, event, show).1, Examined(event), show);
    }
  }

  lemma {:induction false} MissingLinks(emitted: seq<Emission>, calls: seq<Value>, streamed: seq<string>,
                                        items: seq<Value>, show: Value -> string)
    requires AllLinked(emitted, calls, streamed) && Truthful(emitted, calls, show)
    ensures var (after, missing) := Missing(streamed, items, show);
            AllLinked(emitted + missing, calls + items, after) && Truthful(emitted + missing, calls + items, show)
    decreases |items|
  {
    if items == [] {
      assert emitted + [] == emitted && calls + [] == calls;
    } else {
      var rest, last := items[..|items| - 1], items[|items| - 1];
      var (before, missing) := Missing(streamed, rest, show);
      var (_, whole) := WholeCall(before, last, show);
      MissingLinks(emitted, calls, streamed, rest, show);
      WholeCallLinks(emitted + missing, calls + rest, before, last, show);
      WholeCallTruthful(before, last, show);
      TruthfulGrows(emitted + missing, calls + rest, AsSeq(whole), [last], show);
      assert emitted + (missing + AsSeq(whole)) == (emitted + missing) + AsSeq(whole);
      assert calls + items == (calls + rest) + [last];
    }
  }

  /**
   After completion every non-blank id of every call in the result is linked, through calls that share ids, to an
   event that was emitted; and every whole-arguments event carries the arguments of an examined call.
   */
  lemma {:induction false} CallsReported(events: seq<Value>, response: Value, show: Value -> string)
    ensures var attempt := Complete(events, response, show);
            var calls := AllExamined(events) + (OutputItems(response) + attempt.items);
            && Truthful(attempt.emitted, calls, show)
            && (forall i, k | 0 <= i < |OutputItems(response)| && k in CallKeys(OutputItems(response)[i]) ::
                  Linked(attempt.emitted, calls, k))
            && (forall i, k | 0 <= i < |attempt.items| && k in CallKeys(attempt.items[i]) ::
                  Linked(attempt.emitted, calls, k))
  {
    var (a, emitted) := FeedAll(FRESH, events, show);
    FeedAllLinks(events, show);
    MissingLinks(emitted, AllExamined(events), a.streamed, OutputItems(response) + a.items, show);
    CallsOnce(events, response, show);
  }
}
