/** What a memory search returns: hits without repetition, cut to a byte budget. */
module MemorySearch {
  import opened Wrappers
  import opened Text
  import opened MemoryEntries

  const SEARCH_TEXT_MAX_BYTES: nat := 700
  const SUFFIX: string := "\n[memory text truncated]"

  // ----- Removing repetitions -----

  function PairKey(codec: Codec, e: Entry): string {
    codec.normalize(e.subject.UnwrapOr("")) + "\n" + codec.normalize(e.text)
  }

  function DedupeFrom(codec: Codec, hits: seq<Entry>, texts: set<string>, pairs: set<string>): seq<Entry> {
    if hits == [] then []
    else
      var hit, text := hits[0], codec.normalize(hits[0].text);
      if text == "" || text in texts then DedupeFrom(codec, hits[1..], texts, pairs)
      else if hit.subject.None? then [hit] + DedupeFrom(codec, hits[1..], texts + {text}, pairs)
      else if PairKey(codec, hit) in pairs then DedupeFrom(codec, hits[1..], texts + {text}, pairs)
      else [hit] + DedupeFrom(codec, hits[1..], texts + {text}, pairs + {PairKey(codec, hit)})
  }

  function Dedupe(codec: Codec, hits: seq<Entry>): seq<Entry> {
    DedupeFrom(codec, hits, {}, {})
  }

  /** `dedupe_search_hits`. */
  method DedupeLoop(codec: Codec, hits: seq<Entry>) returns (output: seq<Entry>)
    ensures output == Dedupe(codec, hits)
  {
    output := [];
    var texts, pairs := {}, {};
    var i := 0;
    while i < |hits|
      invariant 0 <= i <= |hits|
      invariant output + DedupeFrom(codec, hits[i..], texts, pairs) == Dedupe(codec, hits)
    {
      assert hits[i..][1..] == hits[i + 1..];
      var text := codec.normalize(hits[i].text);
      if text != "" && text !in texts {
        texts := texts + {text};
        if hits[i].subject.None? {
          output := output + [hits[i]];
        } else {
          var pair := PairKey(codec, hits[i]);
          if pair !in pairs {
            pairs := pairs + {pair};
            output := output + [hits[i]];
          }
        }
      }
      i := i + 1;
    }
    assert output + [] == output;
  }

  /** The plain description: the first hit of every non-blank normalised text. */
  function FirstOfEachText(codec: Codec, hits: seq<Entry>, texts: set<string>): (r: seq<Entry>)
    ensures forall i | 0 <= i < |r| :: codec.normalize(r[i].text) != "" && codec.normalize(r[i].text) !in texts
    ensures forall i, j | 0 <= i < j < |r| :: codec.normalize(r[i].text) != codec.normalize(r[j].text)
    ensures forall h | h in hits && codec.normalize(h.text) != "" && codec.normalize(h.text) !in texts ::
              exists k | 0 <= k < |r| :: codec.normalize(r[k].text) == codec.normalize(h.text)
  {
    if hits == [] then []
    else
      var text := codec.normalize(hits[0].text);
      if text == "" || text in texts then FirstOfEachText(codec, hits[1..], texts)
      else
        var rest := FirstOfEachText(codec, hits[1..], texts + {text});
        var r := [hits[0]] + rest;
        assert forall h | h in hits && codec.normalize(h.text) != "" && codec.normalize(h.text) !in texts ::
            exists k | 0 <= k < |r| :: codec.normalize(r[k].text) == codec.normalize(h.text) by {
          FirstCovers(codec, hits, texts, rest);
        }
        r
  }

  lemma {:induction false} FirstCovers(codec: Codec, hits: seq<Entry>, texts: set<string>, rest: seq<Entry>)
    requires hits != []
    requires forall h | h in hits[1..] && codec.normalize(h.text) != ""
                        && codec.normalize(h.text) !in texts + {codec.normalize(hits[0].text)} ::
               exists k | 0 <= k < |rest| :: codec.normalize(rest[k].text) == codec.normalize(h.text)
    ensures forall h | h in hits && codec.normalize(h.text) != "" && codec.normalize(h.text) !in texts ::
              exists k | 0 <= k < |[hits[0]] + rest| :: codec.normalize(([hits[0]] + rest)[k].text) == codec.normalize(h.text)
  {
    var r := [hits[0]] + rest;
    forall h | h in hits && codec.normalize(h.text) != "" && codec.normalize(h.text) !in texts
      ensures exists k | 0 <= k < |r| :: codec.normalize(r[k].text) == codec.normalize(h.text)
    {
      if codec.normalize(h.text) == codec.normalize(hits[0].text) {
        assert r[0] == hits[0];
      } else {
        assert h in hits[1..];
        var k :| 0 <= k < |rest| && codec.normalize(rest[k].text) == codec.normalize(h.text);
        assert r[k + 1] == rest[k];
      }
    }
  }

  /** Every recorded pair belongs to a recorded text. */
  ghost predicate PairsHaveTexts(codec: Codec, texts: set<string>, pairs: set<string>) {
    forall e: Entry :: PairKey(codec, e) in pairs ==> codec.normalize(e.text) in texts
  }

  /** Normalised texts are words joined by blanks, so they hold no line end and a pair determines its text. */
  ghost predicate NoLineEnds(codec: Codec) {
    forall s: string :: '\n' !in codec.normalize(s)
  }

  lemma {:induction false} SplitAtLineEnd(a: string, b: string, c: string, d: string)
    requires a + "\n" + b == c + "\n" + d && '\n' !in a && '\n' !in c
    ensures b == d
  {
    var left, right := a + "\n" + b, c + "\n" + d;
    assert left[0] == right[0];
    if a == "" || c == "" {
      assert left[1..] == right[1..];
    } else {
      assert left[1..] == a[1..] + "\n" + b && right[1..] == c[1..] + "\n" + d;
      SplitAtLineEnd(a[1..], b, c[1..], d);
    }
  }

  lemma {:induction false} PairsGrow(codec: Codec, texts: set<string>, pairs: set<string>, hit: Entry)
    requires NoLineEnds(codec) && PairsHaveTexts(codec, texts, pairs)
    ensures PairsHaveTexts(codec, texts + {codec.normalize(hit.text)}, pairs + {PairKey(codec, hit)})
  {
    forall e: Entry | PairKey(codec, e) in pairs + {PairKey(codec, hit)}
      ensures codec.normalize(e.text) in texts + {codec.normalize(hit.text)}
    {
      if PairKey(codec, e) == PairKey(codec, hit) {
        SplitAtLineEnd(codec.normalize(e.subject.UnwrapOr("")), codec.normalize(e.text),
                       codec.normalize(hit.subject.UnwrapOr("")), codec.normalize(hit.text));
      }
    }
  }

  /** The second set never removes anything: the result is the first hit of each text. */
  lemma {:induction false} DedupeIsFirstOfEachText(codec: Codec, hits: seq<Entry>, texts: set<string>,
                                                   pairs: set<string>)
    requires NoLineEnds(codec) && PairsHaveTexts(codec, texts, pairs)
    ensures DedupeFrom(codec, hits, texts, pairs) == FirstOfEachText(codec, hits, texts)
  {
    hide PairKey, NoLineEnds;
    if hits != [] {
      var hit, text := hits[0], codec.normalize(hits[0].text);
      if text == "" || text in texts {
        DedupeIsFirstOfEachText(codec, hits[1..], texts, pairs);
      } else if hit.subject.None? {
        assert PairsHaveTexts(codec, texts + {text}, pairs);
        DedupeIsFirstOfEachText(codec, hits[1..], texts + {text}, pairs);
      } else {
        PairsGrow(codec, texts, pairs, hit);
        DedupeIsFirstOfEachText(codec, hits[1..], texts + {text}, pairs + {PairKey(codec, hit)});
      }
    }
  }

  // ----- Cutting a text -----

  /** The longest prefix, in whole characters, of at most `budget` bytes. */
  function LongestPrefix(text: string, budget: nat): (p: string)
    ensures p <= text && Bytes(p) <= budget
    ensures p != text ==> Bytes(p) + CharBytes(text[|p|]) > budget
  {
    if text == "" || CharBytes(text[0]) > budget then ""
    else [text[0]] + LongestPrefix(text[1..], budget - CharBytes(text[0]))
  }

  /** `truncate_text_for_search`. */
  function Cut(text: string, max: nat): string {
    if Bytes(Trim(text)) <= max then Trim(text)
    else LongestPrefix(Trim(text), if max > Bytes(SUFFIX) then max - Bytes(SUFFIX) else 1) + SUFFIX
  }

  lemma {:induction false} PrefixEnds(text: string, left: nat)
    requires text == "" || CharBytes(text[0]) > left
    ensures LongestPrefix(text, left) == ""
  {
    hide Bytes, CharBytes;
  }

  lemma {:induction false} PrefixStep(text: string, i: nat, left: nat)
    requires i < |text| && CharBytes(text[i]) <= left
    ensures |LongestPrefix(text[i..], left)| == 1 + |LongestPrefix(text[i + 1..], left - CharBytes(text[i]))|
  {
    hide Bytes, CharBytes;
    assert text[i..][1..] == text[i + 1..];
  }

  method PrefixLoop(text: string, budget: nat) returns (output: string)
    ensures output == LongestPrefix(text, budget)
  {
    hide Bytes, CharBytes, LongestPrefix;
    output := "";
    var used, i := 0, 0;
    assert text[0..] == text;
    while i < |text|
      invariant 0 <= i <= |text| && used <= budget && output == text[..i]
      invariant |LongestPrefix(text, budget)| == i + |LongestPrefix(text[i..], budget - used)|
    {
      if used + CharBytes(text[i]) > budget {
        break;
      }
      PrefixStep(text, i, budget - used);
      output := output + [text[i]];
      used := used + CharBytes(text[i]);
      i := i + 1;
    }
    PrefixEnds(text[i..], budget - used);
    assert LongestPrefix(text, budget) == text[..i];
  }

  method CutLoop(text: string, max: nat) returns (output: string)
    ensures output == Cut(text, max)
  {
    hide Bytes, Trim, LongestPrefix;
    var trimmed := Trim(text);
    if Bytes(trimmed) <= max {
      return trimmed;
    }
    var prefix := PrefixLoop(trimmed, if max > Bytes(SUFFIX) then max - Bytes(SUFFIX) else 1);
    output := prefix + SUFFIX;
  }

  lemma {:induction false} SuffixBytes()
    ensures Bytes(SUFFIX) == 24
  {
    hide Bytes;
    AsciiBytes(SUFFIX);
  }

  /** From 25 bytes on a cut text fits its limit, whatever characters it holds. */
  lemma {:induction false} CutFits(text: string, max: nat)
    requires max > 24
    ensures Bytes(Cut(text, max)) <= max
  {
    hide Bytes, Trim, LongestPrefix;
    SuffixBytes();
    if Bytes(Trim(text)) > max {
      BytesConcat(LongestPrefix(Trim(text), max - 24), SUFFIX);
    }
  }

  // ----- Rendering within a budget -----

  datatype Shown = Shown(entry: Entry, text: string)

  datatype Rendered = Rendered(results: seq<Shown>, ids: set<string>, truncated: bool)

  function Min(a: nat, b: nat): nat {
    if a < b then a else b
  }

  /** The results from here on, when `used` bytes and `count` results are already out. */
  function Results(hits: seq<Entry>, limit: nat, budget: nat, count: nat, used: nat): seq<Shown>
    requires used <= budget
  {
    if hits == [] || count >= limit || budget == used then []
    else
      var text := Cut(hits[0].text, Min(SEARCH_TEXT_MAX_BYTES, budget - used));
      if used + Bytes(text) > budget then []
      else [Shown(hits[0], text)] + Results(hits[1..], limit, budget, count + 1, used + Bytes(text))
  }

  function TextBytes(results: seq<Shown>): nat {
    if results == [] then 0 else Bytes(results[0].text) + TextBytes(results[1..])
  }

  function ShownIds(results: seq<Shown>): set<string> {
    set i | 0 <= i < |results| :: results[i].entry.id
  }

  lemma {:induction false} ShownIdsAppend(results: seq<Shown>, last: Shown)
    ensures ShownIds(results + [last]) == ShownIds(results) + {last.entry.id}
  {
    var all := results + [last];
    assert all[|results|] == last && forall i | 0 <= i < |results| :: all[i] == results[i];
  }

  lemma {:induction false} TextBytesAppend(results: seq<Shown>, last: Shown)
    ensures TextBytes(results + [last]) == TextBytes(results) + Bytes(last.text)
  {
    if results == [] {
      assert results + [last] == [last];
    } else {
      TextBytesAppend(results[1..], last);
      assert (results + [last])[1..] == results[1..] + [last];
    }
  }

  lemma {:induction false} StartEmpty()
    ensures TextBytes([]) == 0 && ShownIds([]) == {}
  {
  }

  /**
   `render_search_results`: a prefix of the hits, at most `limit` of them, whose texts stay within the budget;
   `truncated` says exactly whether some hit was left out.
   */
  method RenderResults(hits: seq<Entry>, limit: nat, budget: nat) returns (r: Rendered)
    ensures r.results == Results(hits, limit, budget, 0, 0)
    ensures |r.results| <= limit && |r.results| <= |hits|
    ensures forall i | 0 <= i < |r.results| :: r.results[i].entry == hits[i]
    ensures r.ids == ShownIds(r.results)
    ensures TextBytes(r.results) <= budget
    ensures r.truncated <==> |r.results| < |hits|
  {
    hide Bytes, Cut, ShownIds, TextBytes;
    var results, ids, used, truncated := [], {}, 0, |hits| > limit;
    StartEmpty();
    var i := 0;
    while i < |hits|
      invariant 0 <= i <= |hits| && |results| == i && i <= limit
      invariant used <= budget && used == TextBytes(results)
      invariant results + Results(hits[i..], limit, budget, i, used) == Results(hits, limit, budget, 0, 0)
      invariant forall k | 0 <= k < i :: results[k].entry == hits[k]
      invariant ids == ShownIds(results)
      invariant truncated == (|hits| > limit)
    {
      if |results| >= limit || used == budget {
        truncated := true;
        break;
      }
      var text := Cut(hits[i].text, Min(SEARCH_TEXT_MAX_BYTES, budget - used));
      if used + Bytes(text) > budget {
        truncated := true;
        break;
      }
      assert hits[i..][1..] == hits[i + 1..];
      TextBytesAppend(results, Shown(hits[i], text));
      ShownIdsAppend(results, Shown(hits[i], text));
      used := used + Bytes(text);
      ids := ids + {hits[i].id};
      results := results + [Shown(hits[i], text)];
      i := i + 1;
    }
    assert Results(hits[i..], limit, budget, i, used) == [] && results + [] == results;
    r := Rendered(results, ids, truncated);
  }

  /** Within the configured budgets a search with a hit always shows one. */
  lemma {:induction false} ShowsSomething(hits: seq<Entry>, limit: nat, budget: nat)
    requires hits != [] && limit >= 1 && budget >= 512
    ensures |Results(hits, limit, budget, 0, 0)| >= 1
  {
    CutFits(hits[0].text, Min(SEARCH_TEXT_MAX_BYTES, budget));
  }

  /**
   A whole search over the ranked hits: the results are the first hits of each normalised text, so no two texts
   repeat, in rank order and within limit and budget.
   */
  method Search(codec: Codec, ranked: seq<Entry>, limit: nat, budget: nat) returns (r: Rendered)
    requires NoLineEnds(codec)
    ensures var hits := FirstOfEachText(codec, ranked, {});
            && |r.results| <= limit && |r.results| <= |hits|
            && (forall i | 0 <= i < |r.results| :: r.results[i].entry == hits[i])
            && TextBytes(r.results) <= budget
            && (r.truncated <==> |r.results| < |hits|)
            && r.ids == ShownIds(r.results)
    ensures forall i, j | 0 <= i < j < |r.results| ::
              codec.normalize(r.results[i].entry.text) != codec.normalize(r.results[j].entry.text)
  {
    var hits := DedupeLoop(codec, ranked);
    DedupeIsFirstOfEachText(codec, ranked, {}, {});
    r := RenderResults(hits, limit, budget);
  }
}
